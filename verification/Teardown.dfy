/** Tearing a display down. Waiting for a helper delivers its exit from inside the wait, and the handlers of
    that exit call stop again; emitting `stopped` makes the seat drop the display and stop it once more. */
module Teardown {
  const HELPER_AUTH_ERROR := 1
  const HELPER_SESSION_ERROR := 2
  const HELPER_DISPLAYSERVER_ERROR := 4
  const HELPER_TTY_ERROR := 5

  /** A helper process. */
  class Auth {
    var running: bool
    var terminated: bool         // it has been told to terminate
    var killed: bool

    constructor ()
      ensures !running && !terminated && !killed
    {
      running, terminated, killed := false, false, false;
    }

    /** It has been told to terminate and, if that was not enough, been killed. */
    predicate Ended()
      reads this
    {
      terminated && (running ==> killed)
    }
  }

  class Greeter {
    var started: bool
    var auth: Auth?

    constructor ()
      ensures !started && auth == null
    {
      started, auth := false, null;
    }

    /** Launches a helper of its own; `started` is only set once its session is up. */
    method Start() returns (ok: bool)
      modifies this`auth
      ensures ok == !started
      ensures if ok then auth != null && fresh(auth) && auth.running && !auth.Ended() else auth == old(auth)
    {
      if started {
        return false;
      }
      auth := new Auth();
      auth.running := true;
      return true;
    }

    method OnSessionStarted(success: bool)
      modifies this`started
      ensures started == success
    {
      started := success;
    }
  }

  ghost predicate Distinct(l: seq<Display>) { forall i, j | 0 <= i < j < |l| :: l[i] != l[j] }

  /** QVector::removeAll. */
  function Without(l: seq<Display>, d: Display): (r: seq<Display>)
    ensures d !in r
    ensures forall x | x in r :: x in l
    ensures forall x | x in l && x != d :: x in r
    ensures d !in l ==> r == l
    ensures |r| <= |l|
  {
    if l == [] then []
    else if l[0] == d then Without(l[1..], d)
    else [l[0]] + Without(l[1..], d)
  }

  lemma {:induction false} WithoutIsDistinct(l: seq<Display>, d: Display)
    requires Distinct(l)
    ensures Distinct(Without(l, d))
  {
    if l != [] {
      WithoutIsDistinct(l[1..], d);
      assert l[0] !in l[1..];
    }
  }

  /** The display list after one `stopped` signal has been handled. */
  datatype Aftermath = Aftermath(stopped: Display, left: seq<Display>)

  ghost predicate Orderly(a: Aftermath) {
    a.left != [] && Distinct(a.left) && a.stopped !in a.left
  }

  /** The signals of one display, at most so many, were added in good order. */
  ghost predicate Signalled(d: Display, before: seq<Aftermath>, after: seq<Aftermath>, most: nat) {
    && before <= after && |after| <= |before| + most
    && forall i | |before| <= i < |after| :: after[i].stopped == d && Orderly(after[i])
  }

  class Seat {
    var displays: seq<Display>
    var exitCode: int
    ghost var signals: seq<Aftermath>

    constructor ()
      ensures displays == [] && signals == []
    {
      displays, exitCode, signals := [], 0, [];
    }

    /** Appends a new display and starts it. */
    method CreateDisplay() returns (d: Display)
      modifies this`displays
      ensures fresh(d) && displays == old(displays) + [d]
      ensures d.Valid() && d.seat == this && d.started && !d.blocked
    {
      d := new Display(this);
      displays := displays + [d];
      var ok := d.Start();
    }

    method RemoveDisplay(d: Display)
      requires d.seat == this && d.Valid() && !d.blocked && Distinct(displays)
      modifies d.Footprint()
      ensures d.Valid() && !d.blocked && !d.started && d.Kept() && d.GreeterSpared()
      ensures var g := old(d.greeter.auth); g != null && old(g.Ended()) ==> g.Ended()
      ensures displays == Without(old(displays), d) && signals == old(signals)
      ensures old(d.started) ==> !d.serverUp
      ensures old(d.started && d.auth.running) ==> d.auth.Ended()
      ensures var g := old(d.greeter.auth);
        old(d.started && d.greeter.started) && g != null && old(g.running) ==> g.Ended()
      decreases d.Running(), if d.started then 1 else 0, 6
    {
      WithoutIsDistinct(displays, d);
      displays := Without(displays, d);
      d.blocked := true;
      d.Stop();
      d.blocked := false;
    }

    /** Handles `stopped`: the display goes, and the seat never stays without one. */
    method DisplayStopped(d: Display)
      requires d.seat == this && d.Valid() && !d.blocked && !d.started && Distinct(displays)
      modifies d.Footprint()
      ensures d.Valid() && !d.blocked && !d.started && d.Kept() && d.GreeterSpared()
      ensures var g := old(d.greeter.auth); g != null && old(g.Ended()) ==> g.Ended()
      ensures Distinct(displays) && displays != [] && d !in displays
      ensures forall x | x in displays :: x in old(displays) || fresh(x)
      ensures forall x | x in old(displays) && x != d :: x in displays
      ensures signals == old(signals) + [Aftermath(d, displays)]
      decreases d.Running(), 0, 7
    {
      RemoveDisplay(d);
      WithoutIsDistinct(old(displays), d);
      if displays == [] {
        var _ := CreateDisplay();
      }
      signals := signals + [Aftermath(d, displays)];
    }

    /** Handles displayServerFailed: the display goes and the daemon will exit. */
    method DisplayServerFailed(d: Display)
      requires d.seat == this && d.Valid() && !d.blocked && Distinct(displays)
      modifies d.Footprint()
      ensures d.Valid() && !d.blocked && !d.started && d.Kept() && d.GreeterSpared()
      ensures var g := old(d.greeter.auth); g != null && old(g.Ended()) ==> g.Ended()
      ensures displays == Without(old(displays), d) && signals == old(signals)
      ensures old(d.started) ==> !d.serverUp
      ensures old(d.started && d.auth.running) ==> d.auth.Ended()
      ensures var g := old(d.greeter.auth);
        old(d.started && d.greeter.started) && g != null && old(g.running) ==> g.Ended()
      ensures exitCode == 12
      decreases d.Running(), if d.started then 1 else 0, 7
    {
      RemoveDisplay(d);
      exitCode := 12;
    }
  }

  class Display {
    const seat: Seat
    const auth: Auth
    const greeter: Greeter
    var started: bool
    var blocked: bool            // blockSignals
    var serverUp: bool

    constructor (seat: Seat)
      ensures this.seat == seat && Valid() && !started && !blocked
      ensures fresh(auth) && fresh(greeter) && greeter.auth == null
    {
      this.seat := seat;
      auth := new Auth();
      greeter := new Greeter();
      started, blocked, serverUp := false, false, false;
    }

    ghost predicate Valid()
      reads this, greeter
    {
      greeter.auth != auth && (greeter.started ==> greeter.auth != null)
    }

    ghost function Footprint(): set<object>
      reads this, greeter
    {
      {this, seat, auth, greeter} + (if greeter.auth == null then {} else {greeter.auth})
    }

    /** How many helper processes can still report their exit. */
    function Running(): nat
      reads this, auth, greeter, greeter.auth
    {
      (if auth.running then 1 else 0) + (if greeter.auth != null && greeter.auth.running then 1 else 0)
    }

    /** A teardown starts no process and replaces no greeter. */
    twostate predicate Kept()
      reads this, auth, greeter, greeter.auth
    {
      && (greeter.auth == old(greeter.auth) || greeter.auth == null)
      && Running() <= old(Running())
      && (started ==> old(started))
      && (serverUp ==> old(serverUp))
      && (old(auth.Ended()) ==> auth.Ended())
      && (old(auth.running) ==> auth.running || auth.Ended())
    }

    /** What a teardown may do to the seat: nothing while signals are blocked, otherwise add orderly signals. */
    twostate predicate SeatKept(most: nat)
      reads this, seat
    {
      && Signalled(this, old(seat.signals), seat.signals, most)
      && (blocked ==> seat.displays == old(seat.displays) && seat.signals == old(seat.signals))
      && (old(Distinct(seat.displays)) ==> Distinct(seat.displays))
      && (forall x | x in seat.displays :: x in old(seat.displays) || fresh(x))
      && (forall x | x in old(seat.displays) && x != this :: x in seat.displays)
    }

    /** A greeter whose session has not come up is not touched. */
    twostate predicate GreeterSpared()
      reads this, greeter, greeter.auth
    {
      old(!greeter.started) ==>
        && !greeter.started && greeter.auth == old(greeter.auth)
        && (greeter.auth != null ==> greeter.auth.running == old(greeter.auth.running))
    }

    /** Starts autologin or queues the greeter; it always reports success. */
    method Start() returns (ok: bool)
      requires Valid()
      modifies this`started, auth
      ensures ok && started && Valid()
    {
      if started {
        return true;
      }
      started := true;
      var autologin: bool := *;
      if autologin {
        auth.running := true;
      }
      return true;
    }

    /** startSocketServerAndGreeter. */
    method StartSocketServerAndGreeter()
      requires Valid()
      modifies this`serverUp, greeter
      ensures Valid() && serverUp && greeter.auth != null && greeter.started == old(greeter.started)
      ensures !greeter.started ==> fresh(greeter.auth) && greeter.auth.running
    {
      serverUp := true;
      var _ := greeter.Start();
    }

    /** Ends stopped, however often it is re-entered. */
    method Stop()
      requires Valid() && Distinct(seat.displays)
      modifies Footprint()
      ensures Valid() && !started && blocked == old(blocked) && Kept() && GreeterSpared()
      ensures var g := old(greeter.auth); g != null && old(g.Ended()) ==> g.Ended()
      ensures old(started) ==> !serverUp
      ensures old(started && auth.running) ==> auth.Ended()
      ensures var g := old(greeter.auth); old(started && greeter.started) && g != null && old(g.running) ==> g.Ended()
      ensures SeatKept(if old(started) && !blocked then 1 + old(Running()) else 0)
      ensures old(started) && !blocked ==>
        |seat.signals| > |old(seat.signals)| && seat.displays != [] && this !in seat.displays
      decreases Running(), if started then 1 else 0, 5
    {
      if !started {
        return;
      }
      StopParts();
      if !blocked {
        seat.DisplayStopped(this);
      }
    }

    /** All of stop before the signal: greeter, helper and server go, in this order, and the flag is reset. */
    method StopParts()
      requires Valid() && Distinct(seat.displays) && started
      modifies Footprint()
      ensures Valid() && !started && !serverUp && blocked == old(blocked) && Kept() && GreeterSpared()
      ensures var g := old(greeter.auth); g != null && old(g.Ended()) ==> g.Ended()
      ensures old(auth.running) ==> auth.Ended()
      ensures var g := old(greeter.auth); old(greeter.started) && g != null && old(g.running) ==> g.Ended()
      ensures SeatKept(if !blocked then old(Running()) else 0)
      decreases Running(), 1, 4
    {
      GreeterStop();
      AuthStop();
      serverUp := false;
      started := false;
    }

    /** Greeter::stop. */
    method GreeterStop()
      requires Valid() && Distinct(seat.displays)
      modifies Footprint()
      ensures Valid() && blocked == old(blocked) && Kept() && GreeterSpared()
      ensures var g := old(greeter.auth); g != null && old(g.Ended()) ==> g.Ended()
      ensures SeatKept(if old(started) && !blocked then old(Running()) else 0)
      ensures seat.signals != old(seat.signals) ==> !started
      ensures var g := old(greeter.auth); old(greeter.started) && g != null && old(g.running) ==> g.Ended()
      decreases Running(), if started then 1 else 0, 3
    {
      if !greeter.started {
        return;
      }
      var child := greeter.auth;
      if !child.running {
        return;
      }
      child.terminated := true;
      var finishes: bool := *;
      if finishes {
        var status: int := *;
        child.running := false;
        OnGreeterFinished(status);
      } else {
        child.killed := true;     // its exit arrives later
      }
    }

    /** Greeter::onHelperFinished and the slots connected to its signals. */
    method OnGreeterFinished(status: int)
      requires Valid() && Distinct(seat.displays) && greeter.auth != null && !greeter.auth.running
      modifies Footprint()
      ensures Valid() && blocked == old(blocked) && Kept()
      ensures var g := old(greeter.auth); g != null && old(g.Ended()) ==> g.Ended()
      ensures SeatKept(if old(started) && !blocked then 1 + old(Running()) else 0)
      ensures seat.signals != old(seat.signals) ==> !started
      ensures !greeter.started && greeter.auth == null
      ensures status in {2, 5} || (status == 4 && !blocked) ==> !started && (old(started) ==> !serverUp)
      ensures status in {2, 5} && old(started) && !blocked ==> |seat.signals| > |old(seat.signals)|
      ensures status == 4 && !blocked ==> seat.exitCode == 12 && seat.signals == old(seat.signals)
      ensures status !in {2, 4, 5} || (status == 4 && blocked) ==> unchanged(this, seat, auth)
      decreases Running(), if started then 1 else 0, 8
    {
      greeter.started := false;
      greeter.auth := null;
      if status == HELPER_DISPLAYSERVER_ERROR {
        if !blocked {
          seat.DisplayServerFailed(this);
          WithoutIsDistinct(old(seat.displays), this);
        }
      } else if status == HELPER_TTY_ERROR {
        Stop();
      } else if status == HELPER_SESSION_ERROR {
        Stop();
      }
    }

    /** Auth::stop of the display's own helper. */
    method AuthStop()
      requires Valid() && Distinct(seat.displays)
      modifies Footprint()
      ensures Valid() && blocked == old(blocked) && Kept() && GreeterSpared()
      ensures var g := old(greeter.auth); g != null && old(g.Ended()) ==> g.Ended()
      ensures SeatKept(if old(started) && !blocked then old(Running()) else 0)
      ensures seat.signals != old(seat.signals) ==> !started
      ensures old(auth.running) ==> auth.Ended()
      decreases Running(), if started then 1 else 0, 3
    {
      if !auth.running {
        return;
      }
      auth.terminated := true;
      var finishes: bool := *;
      if finishes {
        var status: int := *;
        auth.running := false;
        SlotHelperFinished(status);
      } else {
        auth.killed := true;
      }
    }

    method SlotHelperFinished(status: int)
      requires Valid() && Distinct(seat.displays)
      modifies Footprint()
      ensures Valid() && blocked == old(blocked) && Kept() && GreeterSpared()
      ensures var g := old(greeter.auth); g != null && old(g.Ended()) ==> g.Ended()
      ensures SeatKept(if old(started) && !blocked then 1 + old(Running()) else 0)
      ensures seat.signals != old(seat.signals) ==> !started
      ensures status == 1 ==> unchanged(this, seat, auth, greeter)
      ensures status != 1 ==> !started && (old(started) ==> !serverUp)
      decreases Running(), if started then 1 else 0, 8
    {
      if status != HELPER_AUTH_ERROR {
        Stop();
      }
    }
  }
}
