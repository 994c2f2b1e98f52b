/** What greeters are told, and with which credentials helpers are answered, in every reachable state. */
module LoginSafety {
  import opened Bytes
  import opened AuthMessages
  import opened AuthWire
  import opened LoginDaemon
  import opened LoginSystem

  // ----------------------------------------------------- success is earned

  ghost predicate Authenticates(pam: set<PamCall>, r: nat) { PamCall(r, PamAuthenticate, PamSuccess) in pam }

  /** Run r passed pam_authenticate and the account check, possibly by changing an expired token. */
  ghost predicate Earned(pam: set<PamCall>, r: nat) {
    && Authenticates(pam, r)
    && (|| PamCall(r, PamAcctMgmt, PamSuccess) in pam
        || (PamCall(r, PamAcctMgmt, PamNewAuthTokReqd) in pam && PamCall(r, PamChAuthTok, PamSuccess) in pam))
  }

  predicate PastAuthentication(p: Phase) { p.CheckingAccount? || p.ChangingToken? || PastAccount(p) }
  predicate PastAccount(p: Phase) {
    p.Authorized? || p.Opening? || p.Finishing? || p.Reporting? || p.Running? || p.Closing?
  }

  ghost predicate PhaseEarned(pam: set<PamCall>, r: nat, p: Phase) {
    && (PastAuthentication(p) ==> Authenticates(pam, r))
    && (p.ChangingToken? ==> PamCall(r, PamAcctMgmt, PamNewAuthTokReqd) in pam)
    && (PastAccount(p) ==> Earned(pam, r))
  }

  ghost predicate FramesEarned(pam: set<PamCall>, r: nat, up: seq<HelperFrame>) {
    forall i | 0 <= i < |up| && Obliges(up[i]) == Some(Authenticated) :: Earned(pam, r)
  }

  ghost predicate LogEarned(pam: set<PamCall>, log: seq<Entry>) {
    forall i | 0 <= i < |log| && log[i].Sent? && log[i].note.msg.LoginSucceeded? :: Earned(pam, log[i].run)
  }

  ghost predicate EarnInv(s: System) {
    PhaseEarned(s.pam, s.run, s.phase) && FramesEarned(s.pam, s.run, s.up) && LogEarned(s.pam, s.log)
  }

  /** A PAM call moves on only as far as its result, together with those before it, has earned. */
  lemma CallIsEarned(pam: set<PamCall>, r: nat, op: PamOp, result: PamCode)
    requires PhaseEarned(pam, r, CallPhase(op))
    ensures PhaseEarned(pam + {PamCall(r, op, result)}, r, CallResult(op, result))
  {
  }

  lemma MoreCalls(pam: set<PamCall>, more: set<PamCall>, r: nat, up: seq<HelperFrame>, log: seq<Entry>)
    requires pam <= more && FramesEarned(pam, r, up) && LogEarned(pam, log)
    ensures FramesEarned(more, r, up) && LogEarned(more, log)
  {
  }

  lemma FramesAppend(pam: set<PamCall>, r: nat, up: seq<HelperFrame>, more: seq<HelperFrame>)
    requires FramesEarned(pam, r, up) && FramesEarned(pam, r, more)
    ensures FramesEarned(pam, r, up + more)
  {
  }

  lemma HelperStepShows(s: System, e: HelperEvent)
    requires HelperEnabled(s, e)
    ensures var s' := HelperStep(s, e);
      && s'.up == s.up + Sends(e) && s'.phase == NextPhase(s, e) && s'.run == s.run && s'.log == s.log
      && s'.pam == if e.CallPam? then s.pam + {PamCall(s.run, e.op, e.result)} else s.pam
  {
    assert s.up + [] == s.up;
  }

  lemma PhaseStaysEarned(s: System, e: HelperEvent)
    requires EarnInv(s) && HelperEnabled(s, e) && !e.CallPam?
    ensures PhaseEarned(s.pam, s.run, NextPhase(s, e))
  {
  }

  /** A non-empty name is only sent by an authorized helper. */
  lemma SendsAreEarned(s: System, e: HelperEvent)
    requires EarnInv(s) && HelperEnabled(s, e)
    ensures FramesEarned(s.pam, s.run, Sends(e))
  {
  }

  lemma HelperKeepsEarned(s: System, e: HelperEvent)
    requires EarnInv(s) && HelperEnabled(s, e)
    ensures EarnInv(HelperStep(s, e))
  {
    HelperStepShows(s, e);
    SendsAreEarned(s, e);
    FramesAppend(s.pam, s.run, s.up, Sends(e));
    if e.CallPam? {
      CallIsEarned(s.pam, s.run, e.op, e.result);
      MoreCalls(s.pam, s.pam + {PamCall(s.run, e.op, e.result)}, s.run, s.up + Sends(e), s.log);
    } else {
      PhaseStaysEarned(s, e);
    }
  }

  ghost predicate NoSuccess(notes: seq<Note>) {
    forall i | 0 <= i < |notes| :: !notes[i].msg.LoginSucceeded?
  }

  /** The only success message is the one for a non-empty name. */
  lemma SuccessNote(d: Daemon, f: HelperFrame)
    ensures Obliges(f) != Some(Authenticated) ==> NoSuccess(NotesFor(d, f))
  {
  }

  lemma NotesAreEarned(pam: set<PamCall>, log: seq<Entry>, notes: seq<Note>, r: nat)
    requires LogEarned(pam, log) && (NoSuccess(notes) || Earned(pam, r))
    ensures LogEarned(pam, log + Logged(notes, r))
  {
  }

  /** Only reading a frame of the current helper can produce a success message. */
  lemma OtherNotes(s: System, e: DaemonEvent)
    requires DaemonEnabled(s, e) && !e.Read?
    ensures NoSuccess(NotesOf(s, e))
  {
  }

  /** The helper's own channel only gets shorter, until a new helper starts with an empty one. */
  lemma ChannelAfter(loc: Locale, s: System, e: DaemonEvent)
    requires DaemonEnabled(s, e)
    ensures var s' := DaemonStep(loc, s, e);
      if s'.run == s.run then s'.phase == s.phase && (s'.up == s.up || (s.up != [] && s'.up == s.up[1..]))
      else s'.phase == Connecting && s'.up == [] && s'.down == []
  {
  }

  lemma LogStaysEarned(s: System, e: DaemonEvent)
    requires EarnInv(s) && Balanced(s) && DaemonEnabled(s, e)
    ensures LogEarned(s.pam, LogAfter(s, e))
  {
    if e.Read? { SuccessNote(s.daemon, Incoming(s)); } else { OtherNotes(s, e); }
    var log := s.log + LoginEntry(e) + StartEntry(s, e);
    assert LogEarned(s.pam, s.log + LoginEntry(e));
    assert LogEarned(s.pam, log);
    NotesAreEarned(s.pam, log, NotesOf(s, e), Cause(s, e));
  }

  lemma DaemonKeepsEarned(loc: Locale, s: System, e: DaemonEvent)
    requires EarnInv(s) && Balanced(s) && DaemonEnabled(s, e)
    ensures EarnInv(DaemonStep(loc, s, e))
  {
    LogStaysEarned(s, e);
    DaemonStepShows(loc, s, e);
    ChannelAfter(loc, s, e);
  }

  // ------------------------------------------------ who is told, and when

  /** The greeter that may be addressed: the last to log in, until its verdict. */
  function Addressee(log: seq<Entry>): Option<nat> {
    if log == [] then None
    else match log[|log| - 1]
      case LoginFrom(k, _, _) => Some(k)
      case Started(_, _) => Addressee(log[..|log| - 1])
      case Sent(n, _) => if n.verdict then None else Addressee(log[..|log| - 1])
  }

  ghost predicate Polite(log: seq<Entry>) {
    forall j | 0 <= j < |log| && log[j].Sent? :: Addressee(log[..j]) == Some(log[j].note.socket)
  }

  ghost predicate PoliteInv(s: System) {
    Polite(s.log) && (s.daemon.display.socket.Some? ==> Addressee(s.log) == s.daemon.display.socket)
  }

  lemma PoliteAppend(log: seq<Entry>, e: Entry)
    requires Polite(log) && (e.Sent? ==> Addressee(log) == Some(e.note.socket))
    ensures Polite(log + [e])
    ensures Addressee(log + [e]) ==
      if e.LoginFrom? then Some(e.socket) else if e.Sent? && e.note.verdict then None else Addressee(log)
  {
    var all := log + [e];
    assert all[..|log|] == log;
    assert forall j | 0 <= j < |log| :: all[..j] == log[..j];
  }

  /** Messages to the addressee, a verdict coming last if at all. */
  ghost predicate Proper(notes: seq<Note>, k: nat) {
    forall i | 0 <= i < |notes| :: notes[i].socket == k && (notes[i].verdict ==> i == |notes| - 1)
  }

  lemma LoggedFront(notes: seq<Note>, run: nat)
    requires notes != []
    ensures Logged(notes, run) == Logged(notes[..|notes| - 1], run) + [Sent(notes[|notes| - 1], run)]
  {
  }

  lemma {:induction false} PoliteNotes(log: seq<Entry>, notes: seq<Note>, k: nat, run: nat)
    requires Polite(log) && Proper(notes, k) && (notes != [] ==> Addressee(log) == Some(k))
    ensures Polite(log + Logged(notes, run))
    ensures Addressee(log + Logged(notes, run))
         == if notes != [] && notes[|notes| - 1].verdict then None else Addressee(log)
  {
    if notes == [] {
      assert log + Logged(notes, run) == log;
    } else {
      var front, n := notes[..|notes| - 1], notes[|notes| - 1];
      PoliteNotes(log, front, k, run);
      var mid := log + Logged(front, run);
      PoliteAppend(mid, Sent(n, run));
      LoggedFront(notes, run);
      assert log + Logged(notes, run) == mid + [Sent(n, run)];
    }
  }

  lemma FrameNotes(d: Daemon, f: HelperFrame)
    ensures var notes := NotesFor(d, f);
      && (notes != [] ==> d.display.socket.Some?)
      && (d.display.socket.Some? ==> Proper(notes, d.display.socket.value))
  {
  }

  lemma SocketAfterFrame(d: Daemon, f: HelperFrame)
    ensures var s := AfterFrame(d, f).display.socket;
      && (s.Some? ==> s == d.display.socket)
      && (NotesFor(d, f) != [] && NotesFor(d, f)[|NotesFor(d, f)| - 1].verdict ==> s.None?)
  {
  }

  /** The messages of one event go to the greeter that may be addressed; a verdict ends that. */
  lemma EventNotes(s: System, e: DaemonEvent)
    requires DaemonEnabled(s, e)
    ensures var k := if e.Login? then Some(e.socket) else s.daemon.display.socket;
      var notes := NotesOf(s, e);
      && (k.None? ==> notes == [])
      && (k.Some? ==> Proper(notes, k.value))
      && (DaemonAfter(s, e).display.socket.Some? ==> DaemonAfter(s, e).display.socket == k)
      && (notes != [] && notes[|notes| - 1].verdict ==> DaemonAfter(s, e).display.socket.None?)
  {
    match e {
      case Begin(_, _, _) =>
      case ServerStarted =>
      case Login(k, user, password, t, reuse) => LoginEffect(s.daemon, k, user, password, t, reuse);
      case GreeterGone =>
      case Accept =>
      case Read =>
        FrameNotes(s.daemon, Incoming(s));
        SocketAfterFrame(s.daemon, Incoming(s));
      case Reap(text) =>
    }
  }

  lemma PoliteEntries(log: seq<Entry>, k: Option<nat>, notes: seq<Note>, run: nat, after: Option<nat>)
    requires Polite(log) && (k.Some? ==> Addressee(log) == k && Proper(notes, k.value)) && (k.None? ==> notes == [])
    requires after.Some? ==> after == k
    requires notes != [] && notes[|notes| - 1].verdict ==> after.None?
    ensures Polite(log + Logged(notes, run))
    ensures after.Some? ==> Addressee(log + Logged(notes, run)) == after
  {
    PoliteNotes(log, notes, if k.Some? then k.value else 0, run);
  }

  lemma DaemonStepShows(loc: Locale, s: System, e: DaemonEvent)
    requires DaemonEnabled(s, e)
    ensures var s' := DaemonStep(loc, s, e);
      && s'.log == LogAfter(s, e) && s'.daemon == DaemonAfter(s, e) && s'.pam == s.pam
      && s'.begun == (s.begun || e.Begin?) && s'.run == s.run + |StartEntry(s, e)|
  {
  }

  lemma AnnouncedStaysPolite(s: System, e: DaemonEvent)
    requires Polite(s.log) && DaemonEnabled(s, e)
    ensures var log := s.log + LoginEntry(e) + StartEntry(s, e);
      Polite(log) && Addressee(log) == if e.Login? then Some(e.socket) else Addressee(s.log)
  {
    var log := s.log + LoginEntry(e);
    if e.Login? { PoliteAppend(s.log, LoginEntry(e)[0]); } else { assert log == s.log; }
    var start := StartEntry(s, e);
    if start != [] { PoliteAppend(log, start[0]); } else { assert log + start == log; }
  }

  lemma DaemonKeepsPolite(loc: Locale, s: System, e: DaemonEvent)
    requires PoliteInv(s) && DaemonEnabled(s, e)
    ensures PoliteInv(DaemonStep(loc, s, e))
  {
    DaemonStepShows(loc, s, e);
    EventNotes(s, e);
    AnnouncedStaysPolite(s, e);
    var k := if e.Login? then Some(e.socket) else s.daemon.display.socket;
    var log := s.log + LoginEntry(e) + StartEntry(s, e);
    PoliteEntries(log, k, NotesOf(s, e), Cause(s, e), DaemonAfter(s, e).display.socket);
  }

  // --------------------------------------------------- which login is answered

  /** The last launch, or -1. */
  function LatestStart(log: seq<Entry>): (a: int)
    ensures -1 <= a < |log|
    ensures a >= 0 ==> log[a].Started?
    ensures forall i | a < i < |log| :: !log[i].Started?
  {
    if log == [] then -1
    else if log[|log| - 1].Started? then |log| - 1
    else LatestStart(log[..|log| - 1])
  }

  function LatestRun(log: seq<Entry>): nat {
    if LatestStart(log) == -1 then 0 else log[LatestStart(log)].run
  }

  /** The last login, or -1. */
  function LatestLogin(log: seq<Entry>): (m: int)
    ensures -1 <= m < |log|
    ensures m >= 0 ==> log[m].LoginFrom?
    ensures forall i | m < i < |log| :: !log[i].LoginFrom?
  {
    if log == [] then -1
    else if log[|log| - 1].LoginFrom? then |log| - 1
    else LatestLogin(log[..|log| - 1])
  }

  /** What entry j says about those before it: launches are numbered one by one and made for the login just
      before, with its name and password (the first may be made for autologin); messages come from the last. */
  ghost predicate Consistent(log: seq<Entry>, e: Entry) {
    match e
    case LoginFrom(_, _, _) => true
    case Started(r, launch) =>
      && r == LatestRun(log) + 1
      && (log != [] ==>
            var l := log[|log| - 1];
            l.LoginFrom? && launch.user == l.user && launch.pass == l.password)
    case Sent(n, r) => if r == 0 then !n.msg.LoginSucceeded? else r == LatestRun(log)
  }

  ghost predicate Chronicle(log: seq<Entry>) {
    forall j | 0 <= j < |log| :: Consistent(log[..j], log[j])
  }

  ghost predicate ChronicleInv(s: System) {
    && Chronicle(s.log) && LatestRun(s.log) == s.run
    && (!s.begun ==> s.log == [])
    && (s.run == 0 ==> s.up == [] && s.stale == [] && s.phase.Absent?)
  }

  lemma ChronicleAppend(log: seq<Entry>, e: Entry)
    requires Chronicle(log) && Consistent(log, e)
    ensures Chronicle(log + [e])
    ensures LatestRun(log + [e]) == if e.Started? then e.run else LatestRun(log)
  {
    var all := log + [e];
    assert all[..|log|] == log;
    assert forall j | 0 <= j < |log| :: all[..j] == log[..j] && all[j] == log[j];
  }

  lemma {:induction false} ChronicleNotes(log: seq<Entry>, notes: seq<Note>, run: nat)
    requires Chronicle(log) && if run == 0 then NoSuccess(notes) else run == LatestRun(log)
    ensures Chronicle(log + Logged(notes, run)) && LatestRun(log + Logged(notes, run)) == LatestRun(log)
  {
    if notes == [] {
      assert log + Logged(notes, run) == log;
    } else {
      var front, n := notes[..|notes| - 1], notes[|notes| - 1];
      ChronicleNotes(log, front, run);
      ChronicleAppend(log + Logged(front, run), Sent(n, run));
      LoggedFront(notes, run);
      assert log + Logged(notes, run) == log + Logged(front, run) + [Sent(n, run)];
    }
  }

  /** What a launch uses. */
  lemma LaunchUses(s: System, e: DaemonEvent)
    requires Shape(s) && DaemonEnabled(s, e) && Launches(s, e)
    ensures e.Begin? || e.Login?
    ensures e.Begin? ==> !s.begun
    ensures e.Login? ==>
      LaunchOf(DaemonAfter(s, e)).user == e.user && LaunchOf(DaemonAfter(s, e)).pass == e.password
  {
    if e.Login? { LoginEffect(s.daemon, e.socket, e.user, e.password, e.session, e.reuse); }
  }

  lemma LoginContinues(s: System, e: DaemonEvent)
    requires Chronicle(s.log)
    ensures var log := s.log + LoginEntry(e);
      Chronicle(log) && LatestRun(log) == LatestRun(s.log) && (!e.Login? ==> log == s.log)
  {
    if e.Login? { ChronicleAppend(s.log, LoginEntry(e)[0]); } else { assert s.log + LoginEntry(e) == s.log; }
  }

  lemma StartContinues(s: System, e: DaemonEvent)
    requires ChronicleInv(s) && Shape(s) && DaemonEnabled(s, e)
    ensures var log := s.log + LoginEntry(e) + StartEntry(s, e);
      && Chronicle(log) && LatestRun(log) == s.run + |StartEntry(s, e)|
      && (StartEntry(s, e) == [] ==> log == s.log + LoginEntry(e))
  {
    var log := s.log + LoginEntry(e);
    LoginContinues(s, e);
    if Launches(s, e) {
      LaunchUses(s, e);
      ChronicleAppend(log, StartEntry(s, e)[0]);
    } else {
      assert log + StartEntry(s, e) == log;
    }
  }

  /** A launch sends no message. */
  lemma LaunchIsQuiet(s: System, e: DaemonEvent)
    requires DaemonEnabled(s, e) && Launches(s, e)
    ensures NotesOf(s, e) == []
  {
  }

  /** The messages of an event come from the latest helper, and only such a message can be a success. */
  lemma NotesContinue(s: System, e: DaemonEvent)
    requires ChronicleInv(s) && LockInv(s) && DaemonEnabled(s, e)
    ensures if Cause(s, e) == 0 then NoSuccess(NotesOf(s, e)) else Cause(s, e) == s.run
  {
    if e.Read? { SuccessNote(s.daemon, Incoming(s)); } else { OtherNotes(s, e); }
  }

  lemma StartsLog(s: System, e: DaemonEvent)
    requires DaemonEnabled(s, e) && Launches(s, e)
    ensures LogAfter(s, e) == s.log + LoginEntry(e) + StartEntry(s, e)
  {
    LaunchIsQuiet(s, e);
    assert Logged([], Cause(s, e)) == [];
  }

  lemma NotesLog(s: System, e: DaemonEvent, log: seq<Entry>)
    requires ChronicleInv(s) && LockInv(s) && DaemonEnabled(s, e)
    requires Chronicle(log) && LatestRun(log) == s.run
    ensures var after := log + Logged(NotesOf(s, e), Cause(s, e)); Chronicle(after) && LatestRun(after) == s.run
  {
    NotesContinue(s, e);
    ChronicleNotes(log, NotesOf(s, e), Cause(s, e));
  }

  lemma LogContinues(s: System, e: DaemonEvent)
    requires ChronicleInv(s) && LockInv(s) && DaemonEnabled(s, e)
    ensures Chronicle(LogAfter(s, e)) && LatestRun(LogAfter(s, e)) == s.run + |StartEntry(s, e)|
  {
    StartContinues(s, e);
    if Launches(s, e) {
      StartsLog(s, e);
    } else {
      NotesLog(s, e, s.log + LoginEntry(e) + StartEntry(s, e));
    }
  }

  lemma DaemonKeepsChronicle(loc: Locale, s: System, e: DaemonEvent)
    requires ChronicleInv(s) && LockInv(s) && DaemonEnabled(s, e)
    ensures ChronicleInv(DaemonStep(loc, s, e))
  {
    DaemonStepShows(loc, s, e);
    LogContinues(s, e);
    StillEmpty(loc, s, e);
  }

  lemma StillEmpty(loc: Locale, s: System, e: DaemonEvent)
    requires ChronicleInv(s) && LockInv(s) && DaemonEnabled(s, e)
    ensures var s' := DaemonStep(loc, s, e);
      && s'.run == s.run + (if Launches(s, e) then 1 else 0)
      && (!s'.begun ==> s'.log == []) && (s'.run == 0 ==> s'.up == [] && s'.stale == [] && s'.phase.Absent?)
  {
  }

  // ----------------------------------------------- credentials and mode

  /** The user a helper was launched with, until the daemon has read the name it authenticated. */
  function CurrentUser(s: System): QString { if s.renamed then s.name else s.launch.user }

  predicate BeforeReport(p: Phase) {
    p.Absent? || p.Connecting? || p.Starting? || p.Authenticating? || p.CheckingAccount? || p.ChangingToken?
    || p.Refused? || p.Authorized?
  }

  /** The names on their way are the one reported, and none is before the report. */
  ghost predicate NameInv(s: System) {
    && (forall i | 0 <= i < |s.up| && Obliges(s.up[i]) == Some(Authenticated) :: s.up[i].user == s.name)
    && (BeforeReport(s.phase) ==>
          !s.renamed && forall i | 0 <= i < |s.up| :: Obliges(s.up[i]) != Some(Authenticated))
  }

  lemma HelperKeepsName(s: System, e: HelperEvent)
    requires NameInv(s) && HelperEnabled(s, e)
    ensures NameInv(HelperStep(s, e))
  {
    var s' := HelperStep(s, e);
    HelperStepShows(s, e);
    assert s'.renamed == s.renamed && s'.name == if e.SendAuthenticated? then e.user else s.name;
    forall i | 0 <= i < |s'.up| && Obliges(s'.up[i]) == Some(Authenticated)
      ensures s'.up[i].user == s'.name && !BeforeReport(s'.phase)
    {
      if i < |s.up| { assert s'.up[i] == s.up[i]; } else { assert s'.up[i] == Sends(e)[i - |s.up|]; }
    }
  }

  lemma DaemonKeepsName(loc: Locale, s: System, e: DaemonEvent)
    requires NameInv(s) && DaemonEnabled(s, e)
    ensures NameInv(DaemonStep(loc, s, e))
  {
    ChannelAfter(loc, s, e);
    if e.Read? { ReadLeaves(loc, s); } else if !Launches(s, e) { OthersLeave(loc, s, e); }
    NameStays(loc, s, e);
  }

  lemma NameStays(loc: Locale, s: System, e: DaemonEvent)
    requires DaemonEnabled(s, e)
    ensures var t := DaemonStep(loc, s, e);
      if Launches(s, e) then t.up == [] && !t.renamed else t.run == s.run && t.name == s.name
  {
  }


  /** While a helper is active, the credentials in force are those it was launched with. */
  ghost predicate CredState(s: System) {
    && (Alive(s.phase) ==> s.daemon.auth.active)
    && (s.daemon.auth.active ==>
          && s.daemon.display.passPhrase == s.launch.pass && s.daemon.auth.environment == s.launch.environment
          && s.daemon.auth.user == CurrentUser(s))
  }

  /** And the reply that is on its way holds them. */
  ghost predicate CredReply(loc: Locale, s: System) {
    && (s.wait == Some(Ask) && s.down != [] ==>
          s.down[0] == AnswerFrame(Fill(loc.printable, CurrentUser(s), s.launch.pass, s.asked)))
    && (s.wait == Some(Authenticated) && s.down != [] ==>
          s.down[0] == EnvironmentFrame(loc.variables(s.launch.environment)))
  }

  ghost predicate CredInv(loc: Locale, s: System) { CredState(s) && CredReply(loc, s) && NameInv(s) }

  lemma HelperKeepsCred(loc: Locale, s: System, e: HelperEvent)
    requires CredInv(loc, s) && LockInv(s) && HelperEnabled(s, e)
    ensures CredInv(loc, HelperStep(s, e))
  {
    var s' := HelperStep(s, e);
    HelperKeepsName(s, e);
    assert s'.daemon == s.daemon && s'.launch == s.launch && s'.renamed == s.renamed;
    assert e.SendAuthenticated? ==> !s.renamed;
    assert s'.wait.Some? ==> s'.down == s.down == [];
  }

  /** The reply computed for a frame depends on the credentials in force. */
  lemma ReplyCredentials(loc: Locale, d: Daemon, f: HelperFrame)
    ensures f.AskFrame? && Answerable(f.request) ==>
      RepliesTo(loc, d, f) == [AnswerFrame(Fill(loc.printable, d.auth.user, d.display.passPhrase, f.request))]
    ensures Obliges(f) == Some(Authenticated) ==>
      RepliesTo(loc, d, f) == [EnvironmentFrame(loc.variables(d.auth.environment))]
  {
  }

  /** A frame changes no credentials but the user, and that only by a name that was authenticated. */
  lemma FrameKeepsCredentials(d: Daemon, f: HelperFrame)
    ensures var d' := AfterFrame(d, f);
      && d'.auth.active == d.auth.active && d'.display.passPhrase == d.display.passPhrase
      && d'.auth.environment == d.auth.environment
      && d'.auth.user == if Obliges(f) == Some(Authenticated) then f.user else d.auth.user
  {
    if f.AskFrame? { AskEffect(d, f.request); } else { OtherEffect(d, f); }
  }

  /** What a read leaves alone. */
  lemma ReadLeaves(loc: Locale, s: System)
    requires DaemonEnabled(s, Read)
    ensures var t := DaemonStep(loc, s, Read);
      && t.daemon == AfterFrame(s.daemon, Incoming(s))
      && t.phase == s.phase && t.wait == s.wait && t.asked == s.asked && t.launch == s.launch && t.name == s.name
      && t.renamed == (s.renamed || (s.connected && Obliges(Incoming(s)) == Some(Authenticated)))
      && t.down == if s.connected then s.down + RepliesTo(loc, s.daemon, Incoming(s)) else s.down
  {
  }

  lemma ReadKeepsState(loc: Locale, s: System)
    requires CredState(s) && NameInv(s) && DaemonEnabled(s, Read) && (!s.connected ==> Quiet(s.stale))
    ensures CredState(DaemonStep(loc, s, Read))
  {
    ReadLeaves(loc, s);
    FrameKeepsCredentials(s.daemon, Incoming(s));
  }

  /** While a helper waits, a frame read is either of no concern to it or its own, which it waits on alone. */
  lemma HeardWhileWaiting(s: System)
    requires Balanced(s) && s.wait.Some? && s.connected && s.up != []
    ensures Obliges(s.up[0]).None?
      || (s.down == [] && Obliges(s.up[0]) == s.wait && (s.wait == Some(Ask) ==> s.up[0] == AskFrame(s.asked)))
  {
    TailStays(s.up);
  }

  lemma ReadKeepsReply(loc: Locale, s: System)
    requires CredInv(loc, s) && Balanced(s) && DaemonEnabled(s, Read) && s.wait.Some?
    ensures CredReply(loc, DaemonStep(loc, s, Read))
  {
    var f := Incoming(s);
    ReadLeaves(loc, s);
    FrameKeepsCredentials(s.daemon, f);
    if s.connected {
      HeardWhileWaiting(s);
      FrameReplies(loc, s.daemon, f);
      ReplyCredentials(loc, s.daemon, f);
    }
  }

  lemma ReadKeepsCred(loc: Locale, s: System)
    requires CredInv(loc, s) && LockInv(s) && DaemonEnabled(s, Read)
    ensures CredInv(loc, DaemonStep(loc, s, Read))
  {
    ReadKeepsState(loc, s);
    DaemonKeepsName(loc, s, Read);
    if s.wait.Some? { ReadKeepsReply(loc, s); } else { ReadLeaves(loc, s); }
  }

  lemma LaunchKeepsCred(loc: Locale, s: System)
    requires s.daemon.auth.active
    ensures CredInv(loc, Launched(s))
  {
  }

  /** What the other events leave alone, unless they launch a helper. */
  lemma OthersLeave(loc: Locale, s: System, e: DaemonEvent)
    requires DaemonEnabled(s, e) && !e.Read? && !Launches(s, e)
    ensures var t := DaemonStep(loc, s, e);
      && t.daemon == DaemonAfter(s, e) && t.phase == s.phase && t.wait == s.wait && t.asked == s.asked
      && t.launch == s.launch && t.name == s.name && t.renamed == s.renamed && t.down == s.down
  {
  }

  /** They keep the credentials of an active helper, and make none active. */
  lemma OthersKeepCredentials(s: System, e: DaemonEvent)
    requires Shape(s) && DaemonEnabled(s, e) && !e.Read? && !Launches(s, e)
    ensures var d := DaemonAfter(s, e);
      && (d.auth.active ==>
            && s.daemon.auth.active && d.auth.user == s.daemon.auth.user
            && d.auth.environment == s.daemon.auth.environment && d.display.passPhrase == s.daemon.display.passPhrase)
      && (Alive(s.phase) && s.daemon.auth.active ==> d.auth.active)
  {
    match e {
      case Begin(user, t, reuse) => StartEffect(s.daemon, user, t, reuse);
      case ServerStarted =>
      case Login(k, user, password, t, reuse) => LoginEffect(s.daemon, k, user, password, t, reuse);
      case GreeterGone =>
      case Accept =>
      case Reap(text) =>
    }
  }

  lemma OthersKeepCred(loc: Locale, s: System, e: DaemonEvent)
    requires CredInv(loc, s) && Shape(s) && (s.wait.Some? ==> Alive(s.phase))
    requires DaemonEnabled(s, e) && !e.Read? && !Launches(s, e)
    ensures CredInv(loc, DaemonStep(loc, s, e))
  {
    OthersLeave(loc, s, e);
    OthersKeepCredentials(s, e);
    DaemonKeepsName(loc, s, e);
  }

  lemma DaemonKeepsCred(loc: Locale, s: System, e: DaemonEvent)
    requires CredInv(loc, s) && LockInv(s) && DaemonEnabled(s, e)
    ensures CredInv(loc, DaemonStep(loc, s, e))
  {
    if e.Read? {
      ReadKeepsCred(loc, s);
    } else if Launches(s, e) {
      LaunchActivates(s, e);
      LaunchKeepsCred(loc, s.(daemon := DaemonAfter(s, e), begun := s.begun || e.Begin?, log := LogAfter(s, e)));
    } else {
      OthersKeepCred(loc, s, e);
    }
  }

  lemma LaunchActivates(s: System, e: DaemonEvent)
    requires DaemonEnabled(s, e) && Launches(s, e)
    ensures DaemonAfter(s, e).auth.active
  {
  }

  /** Autologin is over before greeters can log in. */
  ghost predicate ModeInv(s: System) {
    && (s.daemon.display.serverUp || s.daemon.display.serverQueued || !s.begun ==> !s.daemon.auth.autologin)
    && (!s.begun ==> !s.daemon.display.serverUp && !s.daemon.display.serverQueued)
    && !s.daemon.auth.greeter
  }

  lemma FrameKeepsMode(d: Daemon, f: HelperFrame)
    ensures var d' := AfterFrame(d, f);
      || (d'.auth.autologin == d.auth.autologin && d'.auth.greeter == d.auth.greeter
          && d'.display == d.display.(socket := d'.display.socket))
      || d' == FallBack(d)
  {
  }

  lemma ModeAfter(s: System, e: DaemonEvent)
    requires ModeInv(s) && Shape(s) && DaemonEnabled(s, e)
    ensures var d, begun := DaemonAfter(s, e), s.begun || e.Begin?;
      && !d.auth.greeter
      && (d.display.serverUp || d.display.serverQueued || !begun ==> !d.auth.autologin)
      && (!begun ==> !d.display.serverUp && !d.display.serverQueued)
  {
    match e {
      case Begin(user, t, reuse) => StartEffect(s.daemon, user, t, reuse);
      case ServerStarted =>
      case Login(k, user, password, t, reuse) => LoginEffect(s.daemon, k, user, password, t, reuse);
      case GreeterGone =>
      case Accept =>
      case Read => FrameKeepsMode(s.daemon, Incoming(s));
      case Reap(text) =>
    }
  }

  lemma DaemonKeepsMode(loc: Locale, s: System, e: DaemonEvent)
    requires ModeInv(s) && Shape(s) && DaemonEnabled(s, e)
    ensures ModeInv(DaemonStep(loc, s, e))
  {
    DaemonStepShows(loc, s, e);
    ModeAfter(s, e);
  }

  // ------------------------------------------------------- every reachable state

  ghost predicate SafeInv(loc: Locale, s: System) {
    LockInv(s) && EarnInv(s) && PoliteInv(s) && ChronicleInv(s) && CredInv(loc, s) && ModeInv(s)
  }

  lemma HelperKeepsSafe(loc: Locale, p: System, e: HelperEvent)
    requires SafeInv(loc, p) && HelperEnabled(p, e)
    ensures SafeInv(loc, HelperStep(p, e))
  {
    HelperKeepsBalance(p, e);
    HelperKeepsShape(p, e);
    HelperKeepsEarned(p, e);
    HelperKeepsCred(loc, p, e);
    HelperOnly(p, e);
  }

  lemma HelperOnly(p: System, e: HelperEvent)
    requires HelperEnabled(p, e)
    ensures var s := HelperStep(p, e);
      s.daemon == p.daemon && s.begun == p.begun && s.log == p.log && s.run == p.run && s.launch == p.launch
  {
  }

  lemma DaemonKeepsSafe(loc: Locale, p: System, e: DaemonEvent)
    requires SafeInv(loc, p) && DaemonEnabled(p, e)
    ensures SafeInv(loc, DaemonStep(loc, p, e))
  {
    DaemonKeepsLock(loc, p, e);
    DaemonKeepsEarned(loc, p, e);
    DaemonKeepsPolite(loc, p, e);
    DaemonKeepsChronicle(loc, p, e);
    DaemonKeepsCred(loc, p, e);
    DaemonKeepsMode(loc, p, e);
  }

  lemma {:induction false} SafeAlways(loc: Locale, es: seq<Event>, s: System)
    requires Leads(loc, es, s)
    ensures SafeInv(loc, s)
  {
    if es != [] {
      var p :| Leads(loc, Front(es), p) && StepsTo(loc, p, Last(es), s);
      SafeAlways(loc, Front(es), p);
      match Last(es) {
        case H(h) => HelperKeepsSafe(loc, p, h);
        case D(d) => DaemonKeepsSafe(loc, p, d);
      }
    }
  }

  lemma ReachableIsSafe(loc: Locale, s: System)
    requires Reachable(loc, s)
    ensures SafeInv(loc, s)
  {
    var es :| Leads(loc, es, s);
    SafeAlways(loc, es, s);
  }

  /** No greeter is told of a success that its helper run has not earned from PAM. */
  lemma SuccessIsEarned(loc: Locale, s: System, i: nat)
    requires Reachable(loc, s) && i < |s.log|
    requires s.log[i].Sent? && s.log[i].note.msg.LoginSucceeded?
    ensures Earned(s.pam, s.log[i].run)
  {
    ReachableIsSafe(loc, s);
  }

  /** The login that made a greeter the addressee; no verdict has been sent since. */
  lemma {:induction false} AddresseeLoggedIn(log: seq<Entry>) returns (m: nat)
    requires Addressee(log).Some?
    ensures m < |log| && log[m].LoginFrom? && log[m].socket == Addressee(log).value
    ensures forall i | m < i < |log| :: !log[i].LoginFrom? && (log[i].Sent? ==> !log[i].note.verdict)
  {
    var n := |log| - 1;
    if !log[n].LoginFrom? {
      m := AddresseeLoggedIn(log[..n]);
    } else {
      m := n;
    }
  }

  /** After a verdict, nothing is sent to any greeter before that greeter logs in again. */
  lemma VerdictIsLast(loc: Locale, s: System, i: nat, j: nat)
    requires Reachable(loc, s) && i < j < |s.log|
    requires s.log[i].Sent? && s.log[i].note.verdict && s.log[j].Sent?
    ensures exists m | i < m < j :: s.log[m].LoginFrom? && s.log[m].socket == s.log[j].note.socket
  {
    ReachableIsSafe(loc, s);
    VerdictSeparates(s.log, i, j);
  }

  lemma VerdictSeparates(log: seq<Entry>, i: nat, j: nat)
    requires Polite(log) && i < j < |log|
    requires log[i].Sent? && log[i].note.verdict && log[j].Sent?
    ensures exists m | i < m < j :: log[m].LoginFrom? && log[m].socket == log[j].note.socket
  {
    var m := AddresseeLoggedIn(log[..j]);
    assert log[..j][i] == log[i] && log[..j][m] == log[m];
  }

  /** Whatever logins arrive meanwhile, a helper's requests are answered with the pass phrase it was launched
      with, and with the user it was launched with until it authenticates another name. */
  lemma CredentialsAreFixed(loc: Locale, s: System)
    requires Reachable(loc, s) && s.wait == Some(Ask) && s.down != []
    ensures s.down == [AnswerFrame(Fill(loc.printable, CurrentUser(s), s.launch.pass, s.asked))]
    ensures var ps := s.asked.prompts;
      s.down == [AnswerFrame(Request(
        if |ps| == 1 then [ps[0].(response := loc.printable(s.launch.pass))]
        else if |ps| == 2 then
          [ps[0].(response := loc.printable(CurrentUser(s))), ps[1].(response := loc.printable(s.launch.pass))]
        else []))]
  {
    ReachableIsSafe(loc, s);
  }

  /** And a helper that has authenticated gets the environment it was launched with. */
  lemma EnvironmentIsFixed(loc: Locale, s: System)
    requires Reachable(loc, s) && s.wait == Some(Authenticated) && s.down != []
    ensures s.down == [EnvironmentFrame(loc.variables(s.launch.environment))]
  {
    ReachableIsSafe(loc, s);
  }

  /** What a helper was launched with changes only with the launch of the next helper. */
  lemma LaunchIsFixed(loc: Locale, s: System, e: Event)
    requires Enabled(s, e)
    ensures var s' := Step(loc, s, e);
      if s'.run == s.run then s'.launch == s.launch
      else s'.run == s.run + 1 && !s.daemon.auth.active && s'.up == [] && s'.down == []
  {
    match e {
      case H(h) => HelperOnly(s, h);
      case D(d) =>
        DaemonStepShows(loc, s, d);
        ChannelAfter(loc, s, d);
        if Launches(s, d) { LaunchesWhenIdle(s, d); } else { NoLaunch(loc, s, d); }
    }
  }

  lemma LaunchesWhenIdle(s: System, e: DaemonEvent)
    requires DaemonEnabled(s, e) && Launches(s, e)
    ensures !s.daemon.auth.active
  {
  }

  lemma NoLaunch(loc: Locale, s: System, e: DaemonEvent)
    requires DaemonEnabled(s, e) && !Launches(s, e)
    ensures DaemonStep(loc, s, e).launch == s.launch
  {
  }

  /** A helper launched for a greeter runs without autologin, not as a greeter, and not for the greeter's own
      account. */
  lemma GreeterLoginsAreOrdinary(loc: Locale, s: System, e: DaemonEvent)
    requires Reachable(loc, s) && e.Login? && DaemonEnabled(s, e)
    requires DaemonStep(loc, s, e).run != s.run
    ensures var s' := DaemonStep(loc, s, e);
      && !s'.daemon.auth.autologin && !s'.daemon.auth.greeter
      && s'.daemon.auth.user == s'.launch.user == e.user != PLASMALOGIN && s'.launch.pass == e.password
      && s'.daemon.auth.sessionPath == s'.launch.path
  {
    ReachableIsSafe(loc, s);
    LoginEffect(s.daemon, e.socket, e.user, e.password, e.session, e.reuse);
  }

  /** The launch numbers grow, so a run has one launch. */
  lemma {:induction false} RunsGrow(log: seq<Entry>, i: nat, k: nat)
    requires Chronicle(log) && i < k < |log| && log[i].Started? && log[k].Started?
    ensures log[i].run < log[k].run
    decreases k
  {
    var a := LatestStart(log[..k]);
    assert log[..k][i] == log[i] && log[..k][a] == log[a];
    if i < a {
      RunsGrow(log, i, a);
    }
  }

  /** Which login a message of a helper answers. It goes to the last one to log in. That is the login the helper
      was launched for, with its name and password, exactly when nobody has logged in since that launch. */
  lemma AnswersItsLogin(loc: Locale, s: System, j: nat) returns (m: nat, a: nat)
    requires Reachable(loc, s) && j < |s.log| && s.log[j].Sent? && s.log[j].run > 0
    ensures m < j && s.log[m].LoginFrom? && s.log[m].socket == s.log[j].note.socket
    ensures forall i | m < i < j :: !s.log[i].LoginFrom?
    ensures a < j && s.log[a].Started? && s.log[a].run == s.log[j].run
    ensures forall i | 0 <= i < |s.log| && i != a && s.log[i].Started? :: s.log[i].run != s.log[j].run
    ensures m + 1 == a <==> forall i | a < i < j :: !s.log[i].LoginFrom?
    ensures m + 1 == a ==> s.log[a].launch.user == s.log[m].user && s.log[a].launch.pass == s.log[m].password
  {
    ReachableIsSafe(loc, s);
    m, a := AnswersLogin(s.log, j);
    forall i | 0 <= i < |s.log| && i != a && s.log[i].Started? ensures s.log[i].run != s.log[j].run {
      if i < a { RunsGrow(s.log, i, a); } else { RunsGrow(s.log, a, i); }
    }
  }

  lemma AddressedLogin(log: seq<Entry>, j: nat) returns (m: nat)
    requires Polite(log) && j < |log| && log[j].Sent?
    ensures m < j && log[m].LoginFrom? && log[m].socket == log[j].note.socket
    ensures forall i | m < i < j :: !log[i].LoginFrom?
  {
    m := AddresseeLoggedIn(log[..j]);
    assert forall i | 0 <= i < j :: log[..j][i] == log[i];
  }

  lemma LaunchBefore(log: seq<Entry>, j: nat) returns (a: nat)
    requires Chronicle(log) && j < |log| && log[j].Sent? && log[j].run > 0
    ensures a < j && log[a].Started? && log[a].run == log[j].run
    ensures a > 0 ==>
      && log[a - 1].LoginFrom?
      && log[a].launch.user == log[a - 1].user && log[a].launch.pass == log[a - 1].password
  {
    var before := log[..j];
    assert Consistent(before, log[j]);
    a := LatestStart(before);
    assert before[a] == log[a] && Consistent(log[..a], log[a]);
    if a > 0 { assert log[..a][a - 1] == log[a - 1]; }
  }

  lemma AnswersLogin(log: seq<Entry>, j: nat) returns (m: nat, a: nat)
    requires Polite(log) && Chronicle(log) && j < |log| && log[j].Sent? && log[j].run > 0
    ensures m < j && log[m].LoginFrom? && log[m].socket == log[j].note.socket
    ensures forall i | m < i < j :: !log[i].LoginFrom?
    ensures a < j && log[a].Started? && log[a].run == log[j].run
    ensures m + 1 == a <==> forall i | a < i < j :: !log[i].LoginFrom?
    ensures m + 1 == a ==> log[a].launch.user == log[m].user && log[a].launch.pass == log[m].password
  {
    m := AddressedLogin(log, j);
    a := LaunchBefore(log, j);
  }

  /** A success certifies the last login of the greeter that is told of it, by PAM accepting a helper launched with
      that login's name and password, exactly when nobody has logged in since that helper was launched. */
  lemma SuccessCertifiesItsLogin(loc: Locale, s: System, j: nat) returns (m: nat, a: nat)
    requires Reachable(loc, s) && j < |s.log| && s.log[j].Sent? && s.log[j].note.msg.LoginSucceeded?
    ensures m < j && s.log[m].LoginFrom? && s.log[m].socket == s.log[j].note.socket
    ensures forall i | m < i < j :: !s.log[i].LoginFrom?
    ensures a < j && s.log[a].Started? && s.log[a].run == s.log[j].run && Earned(s.pam, s.log[a].run)
    ensures m + 1 == a <==> forall i | a < i < j :: !s.log[i].LoginFrom?
    ensures m + 1 == a ==> s.log[a].launch.user == s.log[m].user && s.log[a].launch.pass == s.log[m].password
  {
    ReachableIsSafe(loc, s);
    assert Consistent(s.log[..j], s.log[j]);
    m, a := AnswersLogin(s.log, j);
  }

  // ------------------------------------------------------ what is not promised

  /** All that a login does to the log is to be entered exactly under these conditions: no helper is launched for
      it and its greeter is not told so. */
  lemma LoginIsTakenUp(loc: Locale, s: System, e: DaemonEvent)
    requires e.Login? && DaemonEnabled(s, e)
    ensures DaemonStep(loc, s, e).log == s.log + [LoginFrom(e.socket, e.user, e.password)] <==>
      e.user != PLASMALOGIN
      && (s.daemon.auth.active || !e.session.valid || e.session.sessionType == [] || e.session.exec == [])
  {
    DaemonStepShows(loc, s, e);
    assert |LogAfter(s, e)| == |s.log| + 1 + |StartEntry(s, e)| + |NotesOf(s, e)|;
  }

  /** A login that arrives while another is being checked gets the other's verdict. */
  lemma VerdictGoesToTheLatest(loc: Locale, s: System, e: DaemonEvent)
    requires e.Login? && DaemonEnabled(s, e) && e.user != PLASMALOGIN && s.daemon.auth.active
    requires s.connected && s.up != [] && Obliges(s.up[0]) == Some(Authenticated)
    ensures var mid := DaemonStep(loc, s, e);
      && DaemonEnabled(mid, Read)
      && DaemonStep(loc, mid, Read).log
         == s.log + [LoginFrom(e.socket, e.user, e.password), Sent(Note(e.socket, LoginSucceeded, true), s.run)]
  {
    LoginIsTakenUp(loc, s, e);
    var mid, v := DaemonStep(loc, s, e), Note(e.socket, LoginSucceeded, true);
    assert Logged([v], s.run) == [Sent(v, s.run)];
  }

  /** What reading the first frame of the current helper does. */
  lemma ReadShows(loc: Locale, s: System)
    requires s.connected && s.up != []
    ensures DaemonEnabled(s, Read)
    ensures var t := DaemonStep(loc, s, Read);
      && t.connected && t.up == s.up[1..] && t.daemon == AfterFrame(s.daemon, s.up[0])
      && t.log == s.log + Logged(NotesFor(s.daemon, s.up[0]), s.run)
      && t.phase == s.phase && t.wait == s.wait && t.asked == s.asked && t.run == s.run
  {
    assert s.log + [] + [] == s.log;
  }

  lemma WarningNotes(d: Daemon, k: nat, text: QString, run: nat)
    requires d.display.socket == Some(k)
    ensures Logged(NotesFor(d, ErrorFrame(text, ErrorAuthentication)), run)
         == [Sent(Note(k, InformationMessage(text), false), run), Sent(Note(k, LoginFailed, false), run)]
  {
  }

  lemma VerdictNote(d: Daemon, k: nat, user: QString, run: nat)
    requires d.display.socket == Some(k) && !d.auth.autologin
    ensures Logged(NotesFor(d, AuthenticatedFrame(user)), run)
         == [Sent(Note(k, if user != [] then LoginSucceeded else LoginFailed, true), run)]
  {
  }

  /** An authentication error is reported as a failed login before the verdict, which comes on top of it
      and may be a success. */
  lemma FailureIsNotFinal(loc: Locale, s: System, k: nat, text: QString, user: QString)
    requires s.connected && s.daemon.display.socket == Some(k) && !s.daemon.auth.autologin
    requires |s.up| >= 2 && s.up[0] == ErrorFrame(text, ErrorAuthentication) && s.up[1] == AuthenticatedFrame(user)
    ensures var mid := DaemonStep(loc, s, Read);
      && DaemonEnabled(mid, Read)
      && DaemonStep(loc, mid, Read).log == s.log + [
           Sent(Note(k, InformationMessage(text), false), s.run), Sent(Note(k, LoginFailed, false), s.run),
           Sent(Note(k, if user != [] then LoginSucceeded else LoginFailed, true), s.run)]
  {
    var mid := DaemonStep(loc, s, Read);
    ReadShows(loc, s);
    WarningNotes(s.daemon, k, text, s.run);
    assert mid.up[0] == AuthenticatedFrame(user) && mid.daemon == s.daemon;
    ReadShows(loc, mid);
    VerdictNote(s.daemon, k, user, s.run);
  }

  /** The display survives a helper that exits exactly when the exit code is that of a refused login, whatever
      the helper did before: a session that ends with this code leaves the display up. */
  lemma DisplaySurvivesCodeOne(loc: Locale, s: System, code: int, text: QString)
    requires s.phase == Running && s.wait.None? && s.daemon.auth.active && s.daemon.display.started
    ensures HelperEnabled(s, SessionEnds(code))
    ensures var closing := HelperStep(s, SessionEnds(code));
      && HelperEnabled(closing, Quit)
      && var mid := HelperStep(closing, Quit);
         && DaemonEnabled(mid, Reap(text))
         && (DaemonStep(loc, mid, Reap(text)).daemon.display.started <==> code == HELPER_AUTH_ERROR)
  {
  }
}
