/** What a helper's exit and its last word say about PAM, and what greeters are told by each frame. */
module LoginHistory {
  import opened Bytes
  import opened AuthMessages
  import opened PamData
  import opened AuthWire
  import opened LoginDaemon
  import opened LoginSystem
  import opened LoginSafety

  // --------------------------------------------------- what PAM has said so far

  /** The calls of run r are among these. */
  ghost predicate CallsWithin(pam: set<PamCall>, r: nat, calls: set<PamCall>) {
    forall c | c in pam && c.run == r :: c in calls
  }

  /** The record fits the phase: what is not authorized has not been earned, and an exit says how far PAM let the
      helper get: 1 for a refusal, 3 or 255 for a helper that gave up before it asked PAM anything, 0 for an earned
      login without a session. */
  ghost predicate PhaseTells(pam: set<PamCall>, r: nat, p: Phase, session: bool) {
    match p
    case Absent => CallsWithin(pam, r, {})
    case Connecting => CallsWithin(pam, r, {})
    case Starting => CallsWithin(pam, r, {})
    case Authenticating => CallsWithin(pam, r, {})
    case CheckingAccount => CallsWithin(pam, r, {PamCall(r, PamAuthenticate, PamSuccess)})
    case ChangingToken =>
      CallsWithin(pam, r, {PamCall(r, PamAuthenticate, PamSuccess), PamCall(r, PamAcctMgmt, PamNewAuthTokReqd)})
    case Refused => !Earned(pam, r)
    case Authorized => Earned(pam, r)
    case Opening => Earned(pam, r) && session
    case Finishing => Earned(pam, r) && !session
    case Reporting(_) => Earned(pam, r) && session
    case Running => Earned(pam, r) && session
    case Closing(_) => Earned(pam, r) && session
    case Exited(code) => ExitTells(pam, r, code, session)
    case Crashed => true
  }

  ghost predicate ExitTells(pam: set<PamCall>, r: nat, code: int, session: bool) {
    if Earned(pam, r) then (!session ==> code == 0)
    else code == 1 || (code in {3, 255} && CallsWithin(pam, r, {}))
  }

  /** The helper has said that it was refused, and nobody has heard it yet. */
  ghost predicate Unheeded(up: seq<HelperFrame>) {
    exists i | 0 <= i < |up| :: up[i] == AuthenticatedFrame([])
  }

  /** A success is of a helper that named its user. A failure was not earned, and never will be, since its helper
      makes no more calls; or its helper named nobody. */
  ghost predicate VerdictTells(s: System, n: Note, r: nat) {
    r <= s.run
    && match n.msg
       case LoginSucceeded => r !in s.nameless && (r == s.run ==> !BeforeReport(s.phase))
       case LoginFailed => (!Earned(s.pam, r) && (r == s.run ==> !Alive(s.phase))) || r in s.nameless
       case InformationMessage(_) => false
       case UnknownToGreeter(_) => false
  }

  ghost predicate VerdictsTell(s: System) {
    forall i | 0 <= i < |s.log| && s.log[i].Sent? && s.log[i].note.verdict && s.log[i].run > 0 ::
      VerdictTells(s, s.log[i].note, s.log[i].run)
  }

  /** Whoever named nobody has reported so. */
  ghost predicate NamelessInv(s: System) {
    (forall r | r in s.nameless :: r <= s.run) && (s.run in s.nameless ==> !BeforeReport(s.phase) && s.name == [])
  }

  ghost predicate HistoryInv(s: System) {
    && (forall c | c in s.pam :: c.run <= s.run)
    && PhaseTells(s.pam, s.run, s.phase, s.launch.path != [])
    && (s.phase.Refused? ==> s.wait.None?)
    && (Unheeded(s.up) ==> (!Alive(s.phase) && !Earned(s.pam, s.run)) || s.run in s.nameless)
    && NamelessInv(s) && VerdictsTell(s)
  }

  lemma CallTells(pam: set<PamCall>, r: nat, op: PamOp, result: PamCode, session: bool)
    requires PhaseTells(pam, r, CallPhase(op), session) && PhaseEarned(pam, r, CallPhase(op))
    ensures PhaseTells(pam + {PamCall(r, op, result)}, r, CallResult(op, result), session)
  {
    var more := pam + {PamCall(r, op, result)};
    assert forall c | c in more && c.run == r :: c in pam || c == PamCall(r, op, result);
  }

  lemma PhaseStaysTrue(s: System, e: HelperEvent)
    requires HistoryInv(s) && HelperEnabled(s, e) && !e.CallPam?
    ensures PhaseTells(s.pam, s.run, NextPhase(s, e), s.launch.path != [])
  {
  }

  lemma OnlyRefusalIsEmpty(s: System, e: HelperEvent)
    requires HelperEnabled(s, e)
    ensures Unheeded(Sends(e)) ==> e.SendRefusal? || (e.SendAuthenticated? && e.user == [])
  {
  }

  /** No step of the helper makes a verdict false. */
  lemma HelperKeepsVerdicts(s: System, e: HelperEvent)
    requires HistoryInv(s) && HelperEnabled(s, e)
    ensures VerdictsTell(HelperStep(s, e))
  {
    var s' := HelperStep(s, e);
    HelperStepShows(s, e);
    HelperOnly(s, e);
    if e.CallPam? { OtherRunsStay(s.pam, s.run, e.op, e.result); }
    forall i | 0 <= i < |s'.log| && s'.log[i].Sent? && s'.log[i].note.verdict && s'.log[i].run > 0
      ensures VerdictTells(s', s'.log[i].note, s'.log[i].run)
    {
      assert VerdictTells(s, s.log[i].note, s.log[i].run);
    }
  }

  lemma HelperKeepsNameless(s: System, e: HelperEvent)
    requires NamelessInv(s) && HelperEnabled(s, e)
    ensures NamelessInv(HelperStep(s, e))
    ensures s.nameless <= HelperStep(s, e).nameless
    ensures e.SendAuthenticated? && e.user == [] ==> s.run in HelperStep(s, e).nameless
  {
  }

  lemma HelperKeepsHistory(s: System, e: HelperEvent)
    requires HistoryInv(s) && EarnInv(s) && HelperEnabled(s, e)
    ensures HistoryInv(HelperStep(s, e))
  {
    HelperKeepsVerdicts(s, e);
    HelperKeepsNameless(s, e);
    HelperStepShows(s, e);
    HelperOnly(s, e);
    OnlyRefusalIsEmpty(s, e);
    RefusalAtTheEnd(s.up, Sends(e));
    if e.CallPam? {
      CallTells(s.pam, s.run, e.op, e.result, s.launch.path != []);
    } else {
      PhaseStaysTrue(s, e);
    }
  }

  lemma RefusalAtTheEnd(up: seq<HelperFrame>, more: seq<HelperFrame>)
    ensures Unheeded(up + more) ==> Unheeded(up) || Unheeded(more)
  {
  }

  /** A call adds nothing to other runs. */
  lemma OtherRunsStay(pam: set<PamCall>, r: nat, op: PamOp, result: PamCode)
    ensures forall q: nat | q != r :: Earned(pam + {PamCall(r, op, result)}, q) <==> Earned(pam, q)
  {
  }

  /** Every verdict is for a name, or none, just read. */
  lemma VerdictIsRead(s: System, e: DaemonEvent, n: Note)
    requires DaemonEnabled(s, e) && n in NotesOf(s, e) && n.verdict
    ensures e.Read? && Incoming(s).AuthenticatedFrame?
    ensures n.msg == if Incoming(s).user != [] then LoginSucceeded else LoginFailed
  {
  }

  lemma ReadRefusal(s: System)
    requires s.up != []
    ensures Unheeded(s.up[1..]) ==> Unheeded(s.up)
    ensures s.up[0] == AuthenticatedFrame([]) ==> Unheeded(s.up)
  {
    if i :| 0 <= i < |s.up[1..]| && s.up[1..][i] == AuthenticatedFrame([]) {
      assert s.up[i + 1] == AuthenticatedFrame([]);
    }
  }

  /** What the daemon does leaves the record of the helper, or starts a new one. */
  lemma RecordStays(loc: Locale, s: System, e: DaemonEvent)
    requires DaemonEnabled(s, e)
    ensures var t := DaemonStep(loc, s, e);
      && t.pam == s.pam && t.nameless == s.nameless && s.run <= t.run
      && (t.run == s.run ==> t.phase == s.phase && t.name == s.name)
      && (t.run != s.run ==> t.phase.Connecting?)
  {
    ChannelAfter(loc, s, e);
  }

  lemma NewVerdict(loc: Locale, s: System, e: DaemonEvent, n: Note)
    requires HistoryInv(s) && NameInv(s) && DaemonEnabled(s, e) && n in NotesOf(s, e) && n.verdict
    requires Cause(s, e) > 0
    ensures VerdictTells(s, n, Cause(s, e)) && DaemonStep(loc, s, e).run == s.run
  {
    VerdictIsRead(s, e, n);
    ReadRefusal(s);
    DaemonStepShows(loc, s, e);
  }

  lemma VerdictsStayTrue(loc: Locale, s: System, e: DaemonEvent)
    requires HistoryInv(s) && NameInv(s) && DaemonEnabled(s, e)
    ensures VerdictsTell(DaemonStep(loc, s, e))
  {
    var s' := DaemonStep(loc, s, e);
    DaemonStepShows(loc, s, e);
    RecordStays(loc, s, e);
    var before := s.log + LoginEntry(e) + StartEntry(s, e);
    forall i | 0 <= i < |s'.log| && s'.log[i].Sent? && s'.log[i].note.verdict && s'.log[i].run > 0
      ensures VerdictTells(s', s'.log[i].note, s'.log[i].run)
    {
      assert i < |before| ==> s'.log[i] == before[i];
      if i < |s.log| {
        assert s'.log[i] == s.log[i] && VerdictTells(s, s.log[i].note, s.log[i].run);
      } else if i >= |before| {
        var n := NotesOf(s, e)[i - |before|];
        assert s'.log[i] == Sent(n, Cause(s, e)) && n in NotesOf(s, e);
        NewVerdict(loc, s, e, n);
      }
    }
  }

  /** A new run has no calls yet. */
  lemma NewRunIsBlank(pam: set<PamCall>, r: nat)
    requires forall c | c in pam :: c.run <= r
    ensures CallsWithin(pam, r + 1, {}) && forall c | c in pam :: c.run <= r + 1
  {
  }

  lemma DaemonKeepsHistory(loc: Locale, s: System, e: DaemonEvent)
    requires HistoryInv(s) && NameInv(s) && DaemonEnabled(s, e)
    ensures HistoryInv(DaemonStep(loc, s, e))
  {
    var s' := DaemonStep(loc, s, e);
    DaemonStepShows(loc, s, e);
    ChannelAfter(loc, s, e);
    RecordStays(loc, s, e);
    VerdictsStayTrue(loc, s, e);
    if Launches(s, e) {
      NewRunIsBlank(s.pam, s.run);
    } else {
      NoLaunch(loc, s, e);
      if e.Read? { ReadLeaves(loc, s); } else { OthersLeave(loc, s, e); }
      if s.up != [] { ReadRefusal(s); }
    }
  }

  lemma {:induction false} HistoryAlways(loc: Locale, es: seq<Event>, s: System)
    requires Leads(loc, es, s)
    ensures HistoryInv(s)
  {
    if es != [] {
      var p :| Leads(loc, Front(es), p) && StepsTo(loc, p, Last(es), s);
      HistoryAlways(loc, Front(es), p);
      SafeAlways(loc, Front(es), p);
      match Last(es) {
        case H(h) => HelperKeepsHistory(p, h);
        case D(d) => DaemonKeepsHistory(loc, p, d);
      }
    }
  }

  lemma PhaseIsTold(loc: Locale, s: System)
    requires Reachable(loc, s)
    ensures PhaseTells(s.pam, s.run, s.phase, s.launch.path != []) && (s.phase.Refused? ==> s.wait.None?)
    ensures CredState(s) && VerdictsTell(s) && LogEarned(s.pam, s.log)
  {
    var es :| Leads(loc, es, s);
    HistoryAlways(loc, es, s);
    SafeAlways(loc, es, s);
  }

  /** How a helper ends says how far PAM let it get: an unearned one exits with 1, unless it gave up before asking;
      an earned one without a session with 0. */
  lemma ExitStatus(loc: Locale, s: System)
    requires Reachable(loc, s) && s.phase.Exited?
    ensures Earned(s.pam, s.run) && s.launch.path == [] ==> s.phase.code == 0
    ensures !Earned(s.pam, s.run) ==>
      s.phase.code == 1 || (s.phase.code in {3, 255} && forall c | c in s.pam :: c.run != s.run)
  {
    PhaseIsTold(loc, s);
  }

  /** A verdict tells the truth about its helper: it is a success exactly if PAM has accepted the login and named
      its user, and otherwise a failure. */
  lemma VerdictTellsTheTruth(loc: Locale, s: System, i: nat)
    requires Reachable(loc, s) && i < |s.log|
    requires s.log[i].Sent? && s.log[i].note.verdict && s.log[i].run > 0
    ensures s.log[i].note.msg.LoginSucceeded? || s.log[i].note.msg.LoginFailed?
    ensures s.log[i].note.msg.LoginSucceeded? <==>
      Earned(s.pam, s.log[i].run) && s.log[i].run !in s.nameless
  {
    PhaseIsTold(loc, s);
    assert VerdictTells(s, s.log[i].note, s.log[i].run);
  }

  // ------------------------------------------------------------- a refused login

  /** A refused login leaves display and server as they are: the helper exits with 1, and its end is no reason to
      stop. */
  lemma RefusalKeepsDisplay(loc: Locale, s: System, text: QString)
    requires Reachable(loc, s) && s.phase.Refused? && s.daemon.display.started
    ensures HelperEnabled(s, SendRefusal)
    ensures var mid := HelperStep(s, SendRefusal);
      && mid.phase == Exited(1) && DaemonEnabled(mid, Reap(text))
      && var t := DaemonStep(loc, mid, Reap(text));
         && t.daemon.display.started && t.daemon.display.serverUp == s.daemon.display.serverUp
         && !t.daemon.auth.active && t.log == s.log
  {
    PhaseIsTold(loc, s);
    var mid := HelperStep(s, SendRefusal);
    assert s.log + [] + [] + Logged([], mid.run) == s.log;
  }

  /** A session that could not be opened ends its helper with 2, and with it the display. */
  lemma FailedSessionStops(loc: Locale, s: System, text: QString)
    requires s.phase == Reporting(false) && s.wait.Some? && s.down != [] && s.daemon.auth.active
    ensures HelperEnabled(s, Receive)
    ensures var closing := HelperStep(s, Receive);
      && closing.phase == Closing(2) && HelperEnabled(closing, Quit)
      && var mid := HelperStep(closing, Quit);
         && mid.phase == Exited(2) && DaemonEnabled(mid, Reap(text))
         && var d := DaemonStep(loc, mid, Reap(text)).daemon; !d.display.started && !d.display.serverUp
  {
  }

  /** A crash takes the display down whatever the helper was doing, and a greeter that waits is told twice. */
  lemma CrashStops(loc: Locale, s: System, text: QString)
    requires s.phase.Crashed? && s.daemon.auth.active
    ensures DaemonEnabled(s, Reap(text))
    ensures var t := DaemonStep(loc, s, Reap(text));
      && !t.daemon.display.started && !t.daemon.display.serverUp && !t.daemon.auth.active
      && t.log == s.log + match s.daemon.display.socket
           case None => []
           case Some(k) =>
             var told := Sent(Note(k, InformationMessage(text), false), s.run);
             [told, told]
  {
    var t := DaemonStep(loc, s, Reap(text));
    assert s.log + [] + [] == s.log;
    assert t.log == s.log + Logged(NotesOf(s, Reap(text)), s.run);
  }

  // ------------------------------------------------------ what each frame tells

  /** Reading a frame while greeter k is addressed: what it is told. Information is just passed on, an error
      as well, with a failure only if it is one of authentication; a name is a success and its absence a failure
      (for an autologin, neither); everything else is none of its business. */
  lemma WhatGreetersAreTold(loc: Locale, s: System, k: nat)
    requires DaemonEnabled(s, Read) && s.daemon.display.socket == Some(k)
    ensures DaemonStep(loc, s, Read).log == s.log + Logged(
      match Incoming(s)
      case InfoFrame(m, _) => [Note(k, InformationMessage(m), false)]
      case ErrorFrame(m, ErrorAuthentication) => [Note(k, InformationMessage(m), false), Note(k, LoginFailed, false)]
      case ErrorFrame(m, _) => [Note(k, InformationMessage(m), false)]
      case AuthenticatedFrame(u) =>
        if u != [] then [Note(k, LoginSucceeded, true)]
        else if s.daemon.auth.autologin then [] else [Note(k, LoginFailed, true)]
      case HelloFrame(_) => [Note(k, InformationMessage(Text("Auth: Unexpected value received: 1")), false)]
      case AskFrame(_) => []
      case SessionStatusFrame(_) => []
      case DisplayServerFrame(_) => [],
      Cause(s, Read))
  {
    assert s.log + [] + [] == s.log;
    DaemonStepShows(loc, s, Read);
  }

  /** Nobody is told anything while no greeter is addressed. */
  lemma NobodyIsTold(loc: Locale, s: System)
    requires DaemonEnabled(s, Read) && s.daemon.display.socket.None?
    ensures DaemonStep(loc, s, Read).log == s.log
  {
    assert s.log + [] + [] + Logged([], Cause(s, Read)) == s.log;
    DaemonStepShows(loc, s, Read);
  }

  /** A failure is told only for an empty name, an authentication error, or a login for the greeter's own account. */
  lemma WhereFailuresComeFrom(s: System, e: DaemonEvent, n: Note)
    requires DaemonEnabled(s, e) && n in NotesOf(s, e) && n.msg.LoginFailed?
    ensures || (e.Read? && Incoming(s) == AuthenticatedFrame([]))
            || (e.Read? && Incoming(s).ErrorFrame? && Incoming(s).error == ErrorAuthentication)
            || (e.Login? && e.user == Text("plasmalogin"))
  {
  }

  /** A login for the greeter's own account is told so at once, and launches nothing. */
  lemma OwnAccountIsRefused(loc: Locale, s: System, e: DaemonEvent)
    requires e.Login? && DaemonEnabled(s, e) && e.user == Text("plasmalogin")
    ensures var t := DaemonStep(loc, s, e);
      && t.run == s.run && t.daemon.auth == s.daemon.auth
      && t.log == s.log + [LoginFrom(e.socket, e.user, e.password), Sent(Note(e.socket, LoginFailed, false), s.run)]
  {
    DaemonStepShows(loc, s, e);
    assert Logged([Note(e.socket, LoginFailed, false)], s.run) == [Sent(Note(e.socket, LoginFailed, false), s.run)];
  }

  /** The frame that a message of PAM becomes. */
  function NoticeFrame(n: Notice): HelperFrame {
    match n
    case ErrorNotice(text) => ErrorFrame(text, ErrorAuthentication)
    case InfoNotice(text, kind) => InfoFrame(text, kind)
  }

  /** From PAM to the greeter: an information message arrives as such, an error message with a failed login. */
  lemma PamMessageArrives(loc: Locale, s: System, n: Notice, k: nat)
    requires DaemonEnabled(s, Read) && s.daemon.display.socket == Some(k) && Incoming(s) == NoticeFrame(n)
    ensures DaemonStep(loc, s, Read).log == s.log + Logged(
      [Note(k, InformationMessage(n.text), false)] + (if n.ErrorNotice? then [Note(k, LoginFailed, false)] else []),
      Cause(s, Read))
  {
    WhatGreetersAreTold(loc, s, k);
  }
}
