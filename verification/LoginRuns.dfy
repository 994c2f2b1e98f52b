/** Runs that the safety results speak about do happen: an earned success, a success that follows a failure, and
    a request that is never answered. */
module LoginRuns {
  import opened Bytes
  import opened AuthMessages
  import opened AuthWire
  import opened LoginDaemon
  import opened LoginSystem
  import opened LoginSafety

  lemma Extend(loc: Locale, s: System, e: Event)
    requires Reachable(loc, s) && Enabled(s, e)
    ensures Reachable(loc, Step(loc, s, e))
  {
    var es :| Leads(loc, es, s);
    var all := es + [e];
    assert Front(all) == es && Last(all) == e;
    assert Leads(loc, Front(all), s) && StepsTo(loc, s, Last(all), Step(loc, s, e));
    assert Leads(loc, all, Step(loc, s, e));
  }

  lemma InitiallyReachable(loc: Locale)
    ensures Reachable(loc, INITIAL)
  {
    assert Leads(loc, [], INITIAL);
  }

  predicate Startable(t: Session) { t.valid && t.sessionType != [] && t.exec != [] }

  const NO_AUTOLOGIN := Session(false, [], [], map[])

  /** The log of a first login and its launch. */
  function FirstLogin(k: nat, user: QString, password: QString, t: Session): (log: seq<Entry>)
    ensures |log| == 2
  {
    [LoginFrom(k, user, password), Started(1, Launch(user, password, t.exec, map[] + t.environment))]
  }

  /** The greeter k has logged in and its helper has begun to authenticate. */
  ghost predicate InPam(s: System, k: nat) {
    && s.phase.Authenticating? && s.wait.None? && s.connected && s.up == [] && s.down == []
    && s.run == 1 && s.daemon.auth.active && s.daemon.display.socket == Some(k) && !s.daemon.auth.autologin
    && s.daemon.display.serverUp && s.daemon.display.started && s.launch.path != []
  }

  /** The daemon waits for greeters. */
  ghost predicate Open(s: System) {
    && s.phase.Absent? && s.wait.None? && !s.connected && s.up == [] && s.down == [] && s.stale == []
    && s.run == 0 && s.log == [] && s.daemon == IDLE.(display := IDLE.display.(started := true, serverUp := true))
  }

  lemma Opened(loc: Locale) returns (s: System)
    ensures Reachable(loc, s) && Open(s)
  {
    InitiallyReachable(loc);
    Extend(loc, INITIAL, D(Begin([], NO_AUTOLOGIN, false)));
    var s1 := DaemonStep(loc, INITIAL, Begin([], NO_AUTOLOGIN, false));
    Extend(loc, s1, D(ServerStarted));
    s := DaemonStep(loc, s1, ServerStarted);
  }

  lemma LoggedIn(loc: Locale, k: nat, user: QString, password: QString, t: Session) returns (s: System)
    requires user != PLASMALOGIN && Startable(t)
    ensures Reachable(loc, s)
    ensures s.phase.Connecting? && s.wait.None? && !s.connected && s.up == [] && s.down == [] && s.stale == []
    ensures s.run == 1 && s.daemon.auth.active && s.daemon.display.socket == Some(k) && !s.daemon.auth.autologin
    ensures s.daemon.display.serverUp && s.daemon.display.started && s.launch.path != []
    ensures s.log == FirstLogin(k, user, password, t) && s.daemon.auth.environment == map[] + t.environment
  {
    var open := Opened(loc);
    var e := Login(k, user, password, t, false);
    Extend(loc, open, D(e));
    s := DaemonStep(loc, open, e);
    DaemonStepShows(loc, open, e);
    FirstEntries(open, e);
  }

  lemma FirstEntries(s: System, e: DaemonEvent)
    requires Open(s) && e.Login? && e.user != PLASMALOGIN && Startable(e.session) && !e.reuse
    ensures DaemonEnabled(s, e) && Launches(s, e)
    ensures LogAfter(s, e) == FirstLogin(e.socket, e.user, e.password, e.session)
  {
    LoginEffect(s.daemon, e.socket, e.user, e.password, e.session, e.reuse);
    assert NotesOf(s, e) == [];
  }

  /** A new helper connects, and the daemon accepts the connection. */
  lemma Prepared(loc: Locale, s: System) returns (t: System)
    requires Reachable(loc, s) && s.phase.Connecting? && s.wait.None? && !s.connected && s.up == []
    ensures Reachable(loc, t) && t == s.(phase := Starting, connected := true, stale := [])
  {
    Extend(loc, s, H(SendHello(1)));
    var mid := HelperStep(s, SendHello(1));
    assert mid.up == [HelloFrame(1)];
    Extend(loc, mid, D(Accept));
    t := DaemonStep(loc, mid, Accept);
    assert mid.log + [] + [] + Logged([], mid.run) == mid.log;
  }

  lemma Ready(loc: Locale, k: nat, user: QString, password: QString, t: Session) returns (s: System)
    requires user != PLASMALOGIN && Startable(t)
    ensures Reachable(loc, s) && s.phase.Starting? && InPam(s.(phase := Authenticating), k)
    ensures s.log == FirstLogin(k, user, password, t) && s.daemon.auth.environment == map[] + t.environment
  {
    var s0 := LoggedIn(loc, k, user, password, t);
    s := Prepared(loc, s0);
  }

  lemma Begun(loc: Locale, k: nat, user: QString, password: QString, t: Session) returns (s: System)
    requires user != PLASMALOGIN && Startable(t)
    ensures Reachable(loc, s) && InPam(s, k)
    ensures s.log == FirstLogin(k, user, password, t) && s.daemon.auth.environment == map[] + t.environment
  {
    var ready := Ready(loc, k, user, password, t);
    Extend(loc, ready, H(StartPam(true, [])));
    s := HelperStep(ready, StartPam(true, []));
  }

  /** All but the helper's phase, its wait and its message is as it was. */
  ghost predicate Spoke(t: System, s: System) {
    && t.daemon == s.daemon && t.log == s.log && t.run == s.run && t.launch == s.launch
    && t.connected == s.connected && t.stale == s.stale && t.down == s.down && t.asked == s.asked
  }

  /** The helper writes one frame. */
  lemma Wrote(loc: Locale, s: System, e: HelperEvent, f: HelperFrame) returns (t: System)
    requires Reachable(loc, s) && HelperEnabled(s, e) && s.up == [] && Sends(e) == [f] && !e.AskDaemon?
    ensures Reachable(loc, t) && t == HelperStep(s, e) && t.up == [f] && Spoke(t, s)
    ensures t.phase == NextPhase(s, e) && t.wait == Awaits(e)
  {
    Extend(loc, s, H(e));
    t := HelperStep(s, e);
    assert [] + [f] == [f];
  }

  lemma Called(loc: Locale, s: System, op: PamOp) returns (t: System)
    requires Reachable(loc, s) && s.phase == CallPhase(op) && s.wait.None?
    ensures Reachable(loc, t)
    ensures t == s.(phase := CallResult(op, PamSuccess), pam := s.pam + {PamCall(s.run, op, PamSuccess)},
                    wait := None)
  {
    Extend(loc, s, H(CallPam(op, PamSuccess, [])));
    t := HelperStep(s, CallPam(op, PamSuccess, []));
  }

  lemma Named(loc: Locale, s: System, user: QString) returns (t: System)
    requires Reachable(loc, s) && s.phase.Authorized? && s.wait.None? && s.up == [] && user != []
    ensures Reachable(loc, t) && t.up == [AuthenticatedFrame(user)]
    ensures t.daemon == s.daemon && t.log == s.log && t.run == s.run && t.connected == s.connected && t.pam == s.pam
    ensures t.wait == Some(Authenticated) && t.phase == if s.launch.path != [] then Opening else Finishing
  {
    Extend(loc, s, H(SendAuthenticated(user)));
    t := HelperStep(s, SendAuthenticated(user));
  }

  /** PAM accepts the user and the account, and the helper reports the name. */
  lemma Passed(loc: Locale, s: System, user: QString) returns (t: System)
    requires Reachable(loc, s) && user != []
    requires s.phase.Authenticating? && s.wait.None? && s.up == []
    ensures Reachable(loc, t) && t.up == [AuthenticatedFrame(user)]
    ensures t.daemon == s.daemon && t.log == s.log && t.run == s.run && t.connected == s.connected
    ensures t.wait == Some(Authenticated) && t.phase == if s.launch.path != [] then Opening else Finishing
  {
    var checked := Called(loc, s, PamAuthenticate);
    var accepted := Called(loc, checked, PamAcctMgmt);
    t := Named(loc, accepted, user);
  }

  /** The daemon reads the first frame of the running helper: the messages to greeters are logged. */
  lemma Heard(loc: Locale, s: System, f: HelperFrame) returns (t: System)
    requires Reachable(loc, s) && s.connected && s.up == [f]
    ensures Reachable(loc, t)
    ensures t == DaemonStep(loc, s, Read) && t.log == s.log + Logged(NotesFor(s.daemon, f), s.run)
    ensures t.daemon == AfterFrame(s.daemon, f) && t.up == [] && t.run == s.run && t.connected
    ensures t.phase == s.phase && t.wait == s.wait
  {
    Extend(loc, s, D(Read));
    ReadShows(loc, s);
    t := DaemonStep(loc, s, Read);
  }

  /** The daemon reads the name that PAM authenticated. */
  lemma Accepted(loc: Locale, s: System, user: QString) returns (t: System)
    requires Reachable(loc, s) && user != []
    requires s.phase.Authenticating? && s.wait.None? && s.connected && s.up == []
    requires s.daemon.display.socket.Some? && !s.daemon.auth.autologin
    ensures Reachable(loc, t)
    ensures t.log == s.log + [Sent(Note(s.daemon.display.socket.value, LoginSucceeded, true), s.run)]
  {
    var mid := Passed(loc, s, user);
    t := Heard(loc, mid, AuthenticatedFrame(user));
  }

  /** A login that succeeds, and the log it leaves. */
  lemma SuccessHappens(loc: Locale, k: nat, user: QString, password: QString, t: Session) returns (s: System)
    requires user != PLASMALOGIN && user != [] && Startable(t)
    ensures Reachable(loc, s)
    ensures s.log == FirstLogin(k, user, password, t) + [Sent(Note(k, LoginSucceeded, true), 1)]
  {
    var begun := Begun(loc, k, user, password, t);
    s := Accepted(loc, begun, user);
  }

  lemma Redirected(loc: Locale, s: System, k: nat, e: DaemonEvent) returns (t: System)
    requires Reachable(loc, s) && InPam(s, k) && e.Login? && e.user != PLASMALOGIN
    ensures Reachable(loc, t) && InPam(t, e.socket) && t.log == s.log + [LoginFrom(e.socket, e.user, e.password)]
  {
    Extend(loc, s, D(e));
    LoginIsTakenUp(loc, s, e);
    LoginEffect(s.daemon, e.socket, e.user, e.password, e.session, e.reuse);
    t := DaemonStep(loc, s, e);
  }

  /** A success that certifies another login than the one it is told to: the second greeter may have given any
      name and any password. */
  lemma SuccessOfAnother(loc: Locale, k: nat, user: QString, password: QString, t: Session, later: DaemonEvent)
    returns (s: System)
    requires user != PLASMALOGIN && user != [] && Startable(t) && later.Login? && later.user != PLASMALOGIN
    ensures Reachable(loc, s)
    ensures s.log == FirstLogin(k, user, password, t)
      + [LoginFrom(later.socket, later.user, later.password), Sent(Note(later.socket, LoginSucceeded, true), 1)]
  {
    var begun := Begun(loc, k, user, password, t);
    var mid := Redirected(loc, begun, k, later);
    s := Accepted(loc, mid, user);
  }

  lemma Spoken(loc: Locale, s: System, f: HelperFrame) returns (t: System)
    requires Reachable(loc, s) && s.phase.Authenticating? && s.wait.None? && IsReport(f)
    ensures Reachable(loc, t) && t == s.(up := s.up + [f])
  {
    Extend(loc, s, H(Tell(f)));
    t := HelperStep(s, Tell(f));
  }

  /** PAM writes an error message during authentication, and the daemon passes it on. */
  lemma Warned(loc: Locale, s: System, k: nat, text: QString) returns (t: System)
    requires Reachable(loc, s) && InPam(s, k)
    ensures Reachable(loc, t)
    ensures t.phase.Authenticating? && t.wait.None? && t.connected && t.up == [] && t.run == 1
    ensures t.daemon == s.daemon
    ensures t.log == s.log + [Sent(Note(k, InformationMessage(text), false), 1), Sent(Note(k, LoginFailed, false), 1)]
  {
    var f := ErrorFrame(text, ErrorAuthentication);
    var mid := Spoken(loc, s, f);
    t := Heard(loc, mid, f);
    WarningNotes(s.daemon, k, text, 1);
  }

  /** An error message of PAM, which need not be fatal, reaches the greeter as a failed login; here the login
      then succeeds. */
  lemma FailureThenSuccess(loc: Locale, k: nat, user: QString, password: QString, t: Session, text: QString)
    returns (s: System)
    requires user != PLASMALOGIN && user != [] && Startable(t)
    ensures Reachable(loc, s)
    ensures s.log == FirstLogin(k, user, password, t) + [
      Sent(Note(k, InformationMessage(text), false), 1), Sent(Note(k, LoginFailed, false), 1),
      Sent(Note(k, LoginSucceeded, true), 1)]
  {
    var begun := Begun(loc, k, user, password, t);
    var warned := Warned(loc, begun, k, text);
    s := Accepted(loc, warned, user);
  }

  /** A request that the daemon never answers can be asked: its helper then stays blocked whatever the daemon
      reads. */
  lemma BlockingHappens(loc: Locale, k: nat, user: QString, password: QString, t: Session, r: Request)
    returns (s: System)
    requires user != PLASMALOGIN && Startable(t) && !Answerable(r)
    ensures Reachable(loc, s) && Stuck(s) && s.asked == r && s.up == []
  {
    var s0 := Begun(loc, k, user, password, t);
    Extend(loc, s0, H(AskDaemon(r)));
    var s1 := HelperStep(s0, AskDaemon(r));
    assert s1.up == [AskFrame(r)];
    s := Heard(loc, s1, AskFrame(r));
    RequestIsKept(loc, s1, r);
  }

  lemma RequestIsKept(loc: Locale, s: System, r: Request)
    requires s.connected && s.wait == Some(Ask) && s.up == [AskFrame(r)] && s.down == [] && s.asked == r
    requires !Answerable(r)
    ensures Stuck(DaemonStep(loc, s, Read))
  {
    AskEffect(s.daemon, r);
    FrameReplies(loc, s.daemon, AskFrame(r));
  }

  /** A blocked helper never gets a reply: only its death ends the wait. */
  lemma BlockingStays(loc: Locale, s: System, e: Event)
    requires Reachable(loc, s) && Stuck(s) && Enabled(s, e)
    ensures var s' := Step(loc, s, e);
      if e == H(Die) then s'.phase.Crashed? else Stuck(s') && s'.phase == s.phase
  {
    StuckIsActive(loc, s);
    match e {
      case H(h) => StuckHelper(s, h);
      case D(d) => if d.Read? { StuckReads(loc, s); } else { StuckListens(loc, s, d); }
    }
  }

  lemma StuckHelper(s: System, e: HelperEvent)
    requires Stuck(s) && HelperEnabled(s, e)
    ensures e.Die? && HelperStep(s, e).phase.Crashed?
  {
  }

  lemma StuckIsActive(loc: Locale, s: System)
    requires Reachable(loc, s) && Stuck(s)
    ensures Alive(s.phase) && s.daemon.auth.active && s.begun
  {
    ReachableIsSafe(loc, s);
  }

  lemma StuckListens(loc: Locale, s: System, e: DaemonEvent)
    requires Stuck(s) && Alive(s.phase) && s.daemon.auth.active && s.begun
    requires DaemonEnabled(s, e) && !e.Read?
    ensures Stuck(DaemonStep(loc, s, e)) && DaemonStep(loc, s, e).phase == s.phase
  {
    match e {
      case ServerStarted =>
      case Login(k, user, password, t, reuse) => LoginEffect(s.daemon, k, user, password, t, reuse);
      case GreeterGone =>
    }
  }

  lemma StuckReads(loc: Locale, s: System)
    requires Stuck(s) && DaemonEnabled(s, Read)
    ensures Stuck(DaemonStep(loc, s, Read))
    ensures DaemonStep(loc, s, Read).phase == s.phase
  {
    TailStays(s.up);
    FrameReplies(loc, s.daemon, s.up[0]);
    OtherEffect(s.daemon, s.up[0]);
  }

  // ------------------------------------------------------------ every wait is settled

  /** The daemon reads until nothing is left. */
  function Drained(loc: Locale, s: System): System
    requires s.connected
    decreases |s.up|
  {
    if s.up == [] then s else Drained(loc, DaemonStep(loc, s, Read))
  }

  lemma {:induction false} DrainingSettles(loc: Locale, s: System)
    requires Reachable(loc, s) && s.connected && s.wait.Some?
    ensures var t := Drained(loc, s);
      && Reachable(loc, t) && t.up == []
      && t.phase == s.phase && t.wait == s.wait && t.asked == s.asked && t.run == s.run
      && (if s.wait == Some(Ask) && !Answerable(s.asked) then Stuck(t) else Replied(t))
    decreases |s.up|
  {
    if s.up == [] {
      var es :| Leads(loc, es, s);
      LockAlways(loc, es, s);
    } else {
      Extend(loc, s, D(Read));
      ReadShows(loc, s);
      DrainingSettles(loc, DaemonStep(loc, s, Read));
    }
  }

  /** Wherever a helper is blocked, the daemon only has to accept its connection and read on: then its one reply is
      on the way, unless it asked with neither one nor two prompts. */
  lemma EveryWaitIsSettled(loc: Locale, s: System)
    requires Reachable(loc, s) && s.wait.Some?
    ensures s.connected || DaemonEnabled(s, Accept)
    ensures var c := if s.connected then s else DaemonStep(loc, s, Accept);
      var t := Drained(loc, c);
      && Reachable(loc, t) && t.phase == s.phase && t.wait == s.wait && t.asked == s.asked && t.run == s.run
      && t.up == []
      && (if s.wait == Some(Ask) && !Answerable(s.asked) then Stuck(t) else Replied(t))
  {
    var es :| Leads(loc, es, s);
    LockAlways(loc, es, s);
    if s.connected {
      DrainingSettles(loc, s);
    } else {
      Extend(loc, s, D(Accept));
      DrainingSettles(loc, DaemonStep(loc, s, Accept));
    }
  }

  // ------------------------------------------------- a session that ends with code 1

  function AfterReply(p: Phase): Phase {
    if p == Reporting(true) then Running else if p == Reporting(false) then Closing(HELPER_SESSION_ERROR) else p
  }

  /** The daemon reads the blocked helper's message, and the helper gets its reply. */
  lemma Served(loc: Locale, s: System) returns (t: System)
    requires Reachable(loc, s) && s.connected && |s.up| == 1 && s.wait.Some? && s.wait != Some(Ask)
    ensures Reachable(loc, t) && t.connected && t.up == [] && t.wait.None? && t.phase == AfterReply(s.phase)
    ensures t.daemon == AfterFrame(s.daemon, s.up[0])
  {
    DrainingSettles(loc, s);
    ReadShows(loc, s);
    var heard := DaemonStep(loc, s, Read);
    assert Drained(loc, s) == Drained(loc, heard) == heard;
    Replies(loc, heard);
    Extend(loc, heard, H(Receive));
    t := HelperStep(heard, Receive);
  }

  lemma Replies(loc: Locale, s: System)
    requires Reachable(loc, s) && Replied(s)
    ensures HelperEnabled(s, Receive)
  {
    var es :| Leads(loc, es, s);
    LockAlways(loc, es, s);
  }

  /** From an authorized helper to its running session. */
  lemma SessionUp(loc: Locale, s: System) returns (t: System)
    requires Reachable(loc, s) && s.connected && s.up == [] && s.wait.None? && s.phase.Opening?
    ensures Reachable(loc, t) && t.wait.None? && t.phase == Running && t.daemon == s.daemon
  {
    var mid := Wrote(loc, s, ReportSession(true, None), SessionStatusFrame(true));
    t := Served(loc, mid);
  }

  /** A session that ends with the code of a refused login leaves the display, with its server, up and the helper
      gone, although the login had succeeded. */
  lemma DisplayOutlivesSession(loc: Locale, k: nat, user: QString, password: QString, t: Session) returns (s: System)
    requires user != PLASMALOGIN && user != [] && Startable(t)
    ensures Reachable(loc, s) && s.phase == Exited(HELPER_AUTH_ERROR) && Earned(s.pam, s.run)
    ensures s.daemon.display.started && s.daemon.display.serverUp && !s.daemon.auth.active
  {
    var begun := Begun(loc, k, user, password, t);
    var passed := Passed(loc, begun, user);
    var opening := Served(loc, passed);
    var running := SessionUp(loc, opening);
    ReachableIsSafe(loc, running);
    s := Ended(loc, running);
  }

  lemma Ended(loc: Locale, s: System) returns (t: System)
    requires Reachable(loc, s) && s.phase == Running && s.wait.None? && Earned(s.pam, s.run)
    requires s.daemon.auth.active && s.daemon.display.started && s.daemon.display.serverUp
    ensures Reachable(loc, t) && t.phase == Exited(HELPER_AUTH_ERROR) && Earned(t.pam, t.run)
    ensures t.daemon.display.started && t.daemon.display.serverUp && !t.daemon.auth.active
  {
    Extend(loc, s, H(SessionEnds(HELPER_AUTH_ERROR)));
    var closing := HelperStep(s, SessionEnds(HELPER_AUTH_ERROR));
    Extend(loc, closing, H(Quit));
    var exited := HelperStep(closing, Quit);
    Extend(loc, exited, D(Reap([])));
    t := DaemonStep(loc, exited, Reap([]));
  }

  // -------------------------------------------------------------- refused logins

  /** The daemon and the connection are as they were. */
  ghost predicate Beside(t: System, s: System) {
    && t.daemon == s.daemon && t.run == s.run && t.launch == s.launch && t.connected && t.wait.None? && t.stale == s.stale
  }

  /** PAM refuses. */
  lemma Denied(loc: Locale, s: System, code: int, text: QString) returns (t: System)
    requires Reachable(loc, s) && s.phase.Authenticating? && s.wait.None? && s.up == []
    ensures Reachable(loc, t)
    ensures t == HelperStep(s, CallPam(PamAuthenticate, PamOther(code), text)) && t.phase.Refused? && t.wait.None?
    ensures t.up == [ErrorFrame(text, ErrorAuthentication)] && Spoke(t, s)
  {
    t := Wrote(loc, s, CallPam(PamAuthenticate, PamOther(code), text), ErrorFrame(text, ErrorAuthentication));
  }

  /** PAM refuses, and the daemon reads why. */
  lemma Refuses(loc: Locale, s: System, code: int, text: QString) returns (t: System)
    requires Reachable(loc, s) && s.phase.Authenticating? && s.wait.None? && s.connected && s.up == []
    ensures Reachable(loc, t) && t.phase.Refused? && t.up == [] && Beside(t, s)
    ensures t.log == s.log + Logged(NotesFor(s.daemon, ErrorFrame(text, ErrorAuthentication)), s.run)
  {
    var mid := Denied(loc, s, code, text);
    t := Heard(loc, mid, ErrorFrame(text, ErrorAuthentication));
  }

  /** The helper reports a refusal and exits, and the daemon reads the report. */
  lemma Leaves(loc: Locale, s: System) returns (t: System)
    requires Reachable(loc, s) && s.phase.Refused? && s.wait.None? && s.connected && s.up == []
    ensures Reachable(loc, t) && t.phase == Exited(1) && t.up == []
    ensures Beside(t.(daemon := s.daemon), s) && t.daemon == AfterFrame(s.daemon, AuthenticatedFrame([]))
    ensures t.log == s.log + Logged(NotesFor(s.daemon, AuthenticatedFrame([])), s.run)
  {
    var mid := Wrote(loc, s, SendRefusal, AuthenticatedFrame([]));
    t := Heard(loc, mid, AuthenticatedFrame([]));
  }

  /** Then the daemon reaps it. */
  lemma GivesUp(loc: Locale, s: System) returns (t: System)
    requires Reachable(loc, s) && s.phase.Refused? && s.wait.None? && s.connected && s.up == [] && s.daemon.auth.active
    ensures Reachable(loc, t) && t.phase == Exited(1) && t.run == s.run
    ensures t.log == s.log + Logged(NotesFor(s.daemon, AuthenticatedFrame([])), s.run)
    ensures var d := AfterFrame(s.daemon, AuthenticatedFrame([])); t.daemon == d.(auth := d.auth.(active := false))
  {
    var left := Leaves(loc, s);
    Extend(loc, left, D(Reap([])));
    t := DaemonStep(loc, left, Reap([]));
    assert left.log + [] + [] + Logged([], left.run) == left.log;
  }

  /** A login has failed: its helper is gone, and the display waits for the next one. */
  ghost predicate Reopened(s: System) {
    && s.phase == Exited(1) && s.run == 1 && !s.daemon.auth.active && !s.daemon.auth.autologin
    && s.daemon.display.started && s.daemon.display.serverUp && s.daemon.display.socket.None?
  }

  /** The greeter k waits for a helper that was refused. */
  ghost predicate Dismissed(s: System, k: nat) {
    && s.phase.Refused? && s.wait.None? && s.connected && s.up == []
    && s.run == 1 && s.daemon.auth.active && s.daemon.display.socket == Some(k) && !s.daemon.auth.autologin
    && s.daemon.display.serverUp && s.daemon.display.started
  }

  lemma EmptyName(d: Daemon, k: nat)
    requires d.display.socket == Some(k) && !d.auth.autologin
    ensures Logged(NotesFor(d, AuthenticatedFrame([])), 1) == [Sent(Note(k, LoginFailed, true), 1)]
    ensures AfterFrame(d, AuthenticatedFrame([])) == d.(display := d.display.(socket := None))
  {
  }

  /** The verdict reaches the greeter, and the display stays as it is. */
  lemma Rejected(loc: Locale, s: System, k: nat) returns (t: System)
    requires Reachable(loc, s) && Dismissed(s, k)
    ensures Reachable(loc, t) && Reopened(t) && t.daemon.auth.environment == s.daemon.auth.environment
    ensures t.log == s.log + [Sent(Note(k, LoginFailed, true), 1)]
  {
    t := GivesUp(loc, s);
    EmptyName(s.daemon, k);
  }

  /** A refused login: its greeter gets PAM's message, a failure with it and another one as the verdict, and the
      display stays as it is. */
  lemma RefusedLogin(loc: Locale, k: nat, user: QString, password: QString, t: Session, code: int, text: QString)
    returns (s: System)
    requires user != PLASMALOGIN && Startable(t)
    ensures Reachable(loc, s) && Reopened(s) && s.daemon.auth.environment == map[] + t.environment
    ensures s.log == FirstLogin(k, user, password, t) + [
      Sent(Note(k, InformationMessage(text), false), 1), Sent(Note(k, LoginFailed, false), 1),
      Sent(Note(k, LoginFailed, true), 1)]
  {
    var begun := Begun(loc, k, user, password, t);
    var refused := RefusedFor(loc, begun, k, code, text);
    s := Rejected(loc, refused, k);
  }

  lemma RefusedFor(loc: Locale, s: System, k: nat, code: int, text: QString) returns (t: System)
    requires Reachable(loc, s) && InPam(s, k)
    ensures Reachable(loc, t) && Dismissed(t, k) && t.daemon == s.daemon
    ensures t.log == s.log + [Sent(Note(k, InformationMessage(text), false), 1), Sent(Note(k, LoginFailed, false), 1)]
  {
    t := Refuses(loc, s, code, text);
    WarningNotes(s.daemon, k, text, 1);
  }

  /** The next login after a refused one gets a helper of its own, with its own name and password; of the first
      session's environment it has exactly the variables that its own does not set. */
  lemma NextTry(loc: Locale, k: nat, user: QString, password: QString, t: Session, code: int, text: QString,
                again: DaemonEvent) returns (s: System)
    requires user != PLASMALOGIN && Startable(t)
    requires again.Login? && again.user != PLASMALOGIN && Startable(again.session) && !again.reuse
    ensures Reachable(loc, s) && s.phase.Connecting? && s.run == 2
    ensures s.launch.user == again.user && s.launch.pass == again.password && s.launch.path == again.session.exec
    ensures Merged(t.environment, again.session.environment, s.launch.environment)
    ensures s.daemon.display.socket == Some(again.socket)
  {
    var first := RefusedLogin(loc, k, user, password, t, code, text);
    assert map[] + t.environment == t.environment;
    SessionEnvironmentWins(first.daemon, again.socket, again.user, again.password, again.session, false);
    Extend(loc, first, D(again));
    s := DaemonStep(loc, first, again);
  }

  /** So a session that names no desktop gets the one that the refused login's session named. */
  lemma StaleDesktop(loc: Locale, k: nat, user: QString, password: QString, t: Session, code: int, text: QString,
                     again: DaemonEvent) returns (s: System)
    requires user != PLASMALOGIN && Startable(t) && Text("XDG_CURRENT_DESKTOP") in t.environment
    requires again.Login? && again.user != PLASMALOGIN && Startable(again.session) && !again.reuse
    requires Text("XDG_CURRENT_DESKTOP") !in again.session.environment
    ensures Reachable(loc, s) && s.run == 2 && s.launch.user == again.user
    ensures Text("XDG_CURRENT_DESKTOP") in s.launch.environment
    ensures s.launch.environment[Text("XDG_CURRENT_DESKTOP")] == t.environment[Text("XDG_CURRENT_DESKTOP")]
  {
    s := NextTry(loc, k, user, password, t, code, text, again);
  }

  /** PAM cannot be started, and the daemon reads why. */
  lemma Unstarted(loc: Locale, s: System, text: QString) returns (t: System)
    requires Reachable(loc, s) && s.phase.Starting? && s.wait.None? && s.connected && s.up == []
    ensures Reachable(loc, t) && t.phase.Refused? && t.up == [] && Beside(t, s)
    ensures t.log == s.log + Logged(NotesFor(s.daemon, ErrorFrame(text, ErrorInternal)), s.run)
  {
    var mid := Wrote(loc, s, StartPam(false, text), ErrorFrame(text, ErrorInternal));
    t := Heard(loc, mid, ErrorFrame(text, ErrorInternal));
  }

  lemma UnstartedFor(loc: Locale, s: System, k: nat, text: QString) returns (t: System)
    requires Reachable(loc, s) && s.phase.Starting? && InPam(s.(phase := Authenticating), k)
    ensures Reachable(loc, t) && Dismissed(t, k)
    ensures t.log == s.log + [Sent(Note(k, InformationMessage(text), false), 1)]
  {
    t := Unstarted(loc, s, text);
    assert Logged(NotesFor(s.daemon, ErrorFrame(text, ErrorInternal)), 1)
        == [Sent(Note(k, InformationMessage(text), false), 1)];
  }

  /** A helper that cannot start PAM: its greeter gets the message and the verdict, without the failure between. */
  lemma PamUnavailable(loc: Locale, k: nat, user: QString, password: QString, t: Session, text: QString)
    returns (s: System)
    requires user != PLASMALOGIN && Startable(t)
    ensures Reachable(loc, s) && Reopened(s)
    ensures s.log == FirstLogin(k, user, password, t) + [
      Sent(Note(k, InformationMessage(text), false), 1), Sent(Note(k, LoginFailed, true), 1)]
  {
    var ready := Ready(loc, k, user, password, t);
    var refused := UnstartedFor(loc, ready, k, text);
    s := Rejected(loc, refused, k);
  }

  /** The token has expired and is changed. */
  lemma Changed(loc: Locale, s: System) returns (t: System)
    requires Reachable(loc, s) && s.phase.CheckingAccount? && s.wait.None?
    ensures Reachable(loc, t)
    ensures t == s.(phase := Authorized, wait := None, pam := s.pam
      + {PamCall(s.run, PamAcctMgmt, PamNewAuthTokReqd)} + {PamCall(s.run, PamChAuthTok, PamSuccess)})
  {
    var expired := CallPam(PamAcctMgmt, PamNewAuthTokReqd, []);
    Extend(loc, s, H(expired));
    t := Called(loc, HelperStep(s, expired), PamChAuthTok);
  }

  /** An expired token that is changed leads to a success. */
  lemma ExpiredToken(loc: Locale, k: nat, user: QString, password: QString, t: Session) returns (s: System)
    requires user != PLASMALOGIN && user != [] && Startable(t)
    ensures Reachable(loc, s)
    ensures s.log == FirstLogin(k, user, password, t) + [Sent(Note(k, LoginSucceeded, true), 1)]
    ensures PamCall(1, PamAcctMgmt, PamNewAuthTokReqd) in s.pam && PamCall(1, PamChAuthTok, PamSuccess) in s.pam
  {
    var begun := Begun(loc, k, user, password, t);
    var checking := Called(loc, begun, PamAuthenticate);
    var changed := Changed(loc, checking);
    var named := Named(loc, changed, user);
    s := Heard(loc, named, AuthenticatedFrame(user));
  }

  /** An autologin that is refused falls back to greeters: nobody is told, and the display server comes up. */
  lemma AutologinFallsBack(loc: Locale, user: QString, t: Session, code: int, text: QString) returns (s: System)
    requires Startable(t)
    ensures Reachable(loc, s) && Reopened(s)
    ensures s.log == [Started(1, Launch(user, [], t.exec, map[] + t.environment))]
  {
    var begun := AutologinBegun(loc, user, t);
    var refused := Refuses(loc, begun, code, text);
    var over := GivesUp(loc, refused);
    Extend(loc, over, D(ServerStarted));
    s := DaemonStep(loc, over, ServerStarted);
    assert over.log + [] + [] + Logged([], over.run) == over.log;
  }

  lemma AutologinBegun(loc: Locale, user: QString, t: Session) returns (s: System)
    requires Startable(t)
    ensures Reachable(loc, s) && s.phase.Authenticating? && s.wait.None? && s.connected && s.up == []
    ensures s.run == 1 && s.daemon.auth.active && s.daemon.auth.autologin && s.daemon.display.socket.None?
    ensures s.daemon.display.started && s.log == [Started(1, Launch(user, [], t.exec, map[] + t.environment))]
  {
    InitiallyReachable(loc);
    var e := Begin(user, t, false);
    Extend(loc, INITIAL, D(e));
    var s0 := DaemonStep(loc, INITIAL, e);
    assert s0.log == [Started(1, Launch(user, [], t.exec, map[] + t.environment))];
    s := Prepared(loc, s0);
    Extend(loc, s, H(StartPam(true, [])));
    s := HelperStep(s, StartPam(true, []));
  }
}
