/** The helper process and the daemon as one transition system: two FIFO channels, any interleaving, greeters
    that log in at any moment, helpers that die at any moment, and several helpers one after the other. */
module LoginSystem {
  import opened Bytes
  import opened AuthMessages
  import opened AuthWire
  import opened LoginDaemon

  datatype PamCode = PamSuccess | PamNewAuthTokReqd | PamOther(code: int)
  datatype PamOp = PamAuthenticate | PamAcctMgmt | PamChAuthTok
  datatype PamCall = PamCall(run: nat, op: PamOp, result: PamCode)

  /** Where doAuth is. */
  datatype Phase =
    | Absent | Connecting | Starting
    | Authenticating | CheckingAccount | ChangingToken
    | Refused | Authorized | Opening | Finishing
    | Reporting(success: bool) | Running | Closing(code: int)
    | Exited(code: int) | Crashed

  const HELPER_SUCCESS := 0
  const HELPER_SESSION_ERROR := 2
  const STOPPED := 255                  // the exit status of exit(-1), on SIGTERM

  /** What a helper was launched with. */
  datatype Launch = Launch(user: QString, pass: QString, path: QString, environment: Environment)

  /** What is remembered of a run: logins, launches (a launch for a login directly follows it), and messages with
      the number of the helper that caused them. */
  datatype Entry =
    | LoginFrom(socket: nat, user: QString, password: QString)
    | Started(run: nat, launch: Launch)
    | Sent(note: Note, run: nat)

  function LaunchOf(d: Daemon): Launch {
    Launch(d.auth.user, d.display.passPhrase, d.auth.sessionPath, d.auth.environment)
  }

  datatype System = System(
    daemon: Daemon,
    begun: bool,                   // Display::start has been called
    run: nat,                      // how many helpers have been launched
    launch: Launch,
    phase: Phase,
    wait: Option<Msg>,             // the opcode a blocked helper expects
    asked: Request,                // its last request
    confused: bool,                // it received another opcode than that
    connected: bool,               // the daemon has accepted its connection
    name: QString,                 // the name it has reported as authenticated
    renamed: bool,                 // the daemon has taken that name over
    nameless: set<nat>,            // the helpers that authenticated a user without a name
    up: seq<HelperFrame>,
    down: seq<DaemonFrame>,
    stale: seq<HelperFrame>,       // frames of earlier helpers on the sockets still being read
    pam: set<PamCall>,
    log: seq<Entry>)

  const INITIAL := System(IDLE, false, 0, Launch([], [], [], map[]), Absent, None, Request([]), false, false, [], false,
                          {}, [], [], [], {}, [])

  datatype HelperEvent =
    | GiveUp(code: int)
    | SendHello(id: int64)
    | StartPam(ok: bool, text: QString)
    | Tell(frame: HelperFrame)
    | AskDaemon(request: Request)
    | CallPam(op: PamOp, result: PamCode, text: QString)
    | SendRefusal
    | SendAuthenticated(user: QString)
    | ReportSession(success: bool, error: Option<HelperFrame>)
    | ReportDisplayServer(name: QString)
    | Receive
    | Finish
    | SessionEnds(code: int)
    | Quit
    | Die

  datatype DaemonEvent =
    | Begin(user: QString, session: Session, reuse: bool)
    | ServerStarted
    | Login(socket: nat, user: QString, password: QString, session: Session, reuse: bool)
    | GreeterGone
    | Accept
    | Read
    | Reap(text: QString)

  datatype Event = H(h: HelperEvent) | D(d: DaemonEvent)

  predicate Alive(p: Phase) { !p.Absent? && !p.Exited? && !p.Crashed? }

  /** A PAM call that can hold conversations is in progress; closing a session can, too. */
  predicate Conversing(p: Phase) {
    p.Authenticating? || p.CheckingAccount? || p.ChangingToken? || p.Opening? || p.Closing?
  }

  function CallPhase(op: PamOp): Phase {
    match op
    case PamAuthenticate => Authenticating
    case PamAcctMgmt => CheckingAccount
    case PamChAuthTok => ChangingToken
  }

  predicate IsReport(f: HelperFrame) { f.ErrorFrame? || f.InfoFrame? }

  predicate HelperEnabled(s: System, e: HelperEvent) {
    && Alive(s.phase)
    && (s.wait.Some? ==> e.Receive? || e.Die?)
    && match e
       case GiveUp(code) => s.phase.Connecting? && code in {HELPER_OTHER_ERROR, STOPPED}
       case SendHello(_) => s.phase.Connecting?
       case StartPam(_, _) => s.phase.Starting?
       case Tell(f) => Conversing(s.phase) && IsReport(f)
       case AskDaemon(_) => Conversing(s.phase)
       case CallPam(op, _, _) => s.phase == CallPhase(op)
       case SendRefusal => s.phase.Refused?
       case SendAuthenticated(_) => s.phase.Authorized?
       case ReportSession(success, error) => s.phase.Opening? && (error.Some? ==> !success && error.value.ErrorFrame?)
       case ReportDisplayServer(_) => s.phase.Opening?
       case Receive => s.wait.Some? && s.down != []
       case Finish => s.phase.Finishing?
       case SessionEnds(_) => s.phase.Running?
       case Quit => s.phase.Closing?
       case Die => true
  }

  function CallResult(op: PamOp, result: PamCode): Phase {
    match op
    case PamAuthenticate => if result.PamSuccess? then CheckingAccount else Refused
    case PamAcctMgmt =>
      if result.PamSuccess? then Authorized else if result.PamNewAuthTokReqd? then ChangingToken else Refused
    case PamChAuthTok => if result.PamSuccess? then Authorized else Refused
  }

  /** The frames an event writes. */
  function Sends(e: HelperEvent): seq<HelperFrame> {
    match e
    case GiveUp(_) => []
    case SendHello(id) => [HelloFrame(id)]
    case StartPam(ok, text) => if ok then [] else [ErrorFrame(text, ErrorInternal)]
    case Tell(f) => [f]
    case AskDaemon(r) => [AskFrame(r)]
    case CallPam(op, result, text) =>
      if CallResult(op, result).Refused? then [ErrorFrame(text, ErrorAuthentication)] else []
    case SendRefusal => [AuthenticatedFrame([])]
    case SendAuthenticated(user) => [AuthenticatedFrame(user)]
    case ReportSession(success, error) =>
      (if error.Some? then [error.value] else []) + [SessionStatusFrame(success)]
    case ReportDisplayServer(name) => [DisplayServerFrame(name)]
    case Receive => []
    case Finish => []
    case SessionEnds(_) => []
    case Quit => []
    case Die => []
  }

  /** The reply it then blocks for: an empty name is sent without waiting. */
  function Awaits(e: HelperEvent): Option<Msg> {
    match e
    case AskDaemon(_) => Some(Ask)
    case SendAuthenticated(user) => if user != [] then Some(Authenticated) else None
    case ReportSession(_, _) => Some(SessionStatus)
    case ReportDisplayServer(_) => Some(DisplayServerStarted)
    case GiveUp(_) => None
    case SendHello(_) => None
    case StartPam(_, _) => None
    case Tell(_) => None
    case CallPam(_, _, _) => None
    case SendRefusal => None
    case Receive => None
    case Finish => None
    case SessionEnds(_) => None
    case Quit => None
    case Die => None
  }

  function NextPhase(s: System, e: HelperEvent): Phase {
    match e
    case GiveUp(code) => Exited(code)
    case SendHello(_) => Starting
    case StartPam(ok, _) => if ok then Authenticating else Refused
    case CallPam(op, result, _) => CallResult(op, result)
    case SendRefusal => Exited(HELPER_AUTH_ERROR)
    case SendAuthenticated(_) => if s.launch.path != [] then Opening else Finishing
    case ReportSession(success, _) => Reporting(success)
    case Receive =>
      if s.phase == Reporting(true) then Running
      else if s.phase == Reporting(false) then Closing(HELPER_SESSION_ERROR)
      else s.phase
    case Finish => Exited(HELPER_SUCCESS)
    case SessionEnds(code) => Closing(code)
    case Quit => if s.phase.Closing? then Exited(s.phase.code) else s.phase
    case Die => Crashed
    case Tell(_) => s.phase
    case AskDaemon(_) => s.phase
    case ReportDisplayServer(_) => s.phase
  }

  function HelperStep(s: System, e: HelperEvent): System
    requires HelperEnabled(s, e)
  {
    s.(phase := NextPhase(s, e),
       up := if Sends(e) == [] then s.up else s.up + Sends(e),
       wait := Awaits(e),
       asked := if e.AskDaemon? then e.request else s.asked,
       name := if e.SendAuthenticated? then e.user else s.name,
       nameless := if e.SendAuthenticated? && e.user == [] then s.nameless + {s.run} else s.nameless,
       down := if e.Receive? then s.down[1..] else s.down,
       confused := s.confused || (e.Receive? && DaemonCode(s.down[0]) != s.wait.value),
       pam := if e.CallPam? then s.pam + {PamCall(s.run, e.op, e.result)} else s.pam)
  }

  /** The reply a frame obliges the daemon to. */
  function Obliges(f: HelperFrame): Option<Msg> {
    match f
    case AskFrame(_) => Some(Ask)
    case AuthenticatedFrame(u) => if u != [] then Some(Authenticated) else None
    case SessionStatusFrame(_) => Some(SessionStatus)
    case DisplayServerFrame(_) => Some(DisplayServerStarted)
    case HelloFrame(_) => None
    case ErrorFrame(_, _) => None
    case InfoFrame(_, _) => None
  }

  predicate DaemonEnabled(s: System, e: DaemonEvent) {
    match e
    case Begin(_, _, _) => !s.begun
    case ServerStarted => s.daemon.display.serverQueued && s.daemon.display.started
    case Login(_, _, _, _, _) => s.daemon.display.serverUp
    case GreeterGone => true
    case Accept => !s.connected && s.up != [] && s.up[0].HelloFrame?
    case Read => if s.connected then s.up != [] else s.stale != []
    case Reap(_) => s.daemon.auth.active && (s.phase.Exited? || s.phase.Crashed?)
  }

  function Logged(notes: seq<Note>, run: nat): seq<Entry> {
    seq(|notes|, i requires 0 <= i < |notes| => Sent(notes[i], run))
  }

  /** The frame the daemon hears next: until the new connection is accepted, from the old one. */
  function Incoming(s: System): HelperFrame
    requires DaemonEnabled(s, Read)
  {
    if s.connected then s.up[0] else s.stale[0]
  }

  function DaemonAfter(s: System, e: DaemonEvent): Daemon
    requires DaemonEnabled(s, e)
  {
    match e
    case Begin(user, session, reuse) => OnStart(s.daemon, user, session, reuse).0
    case ServerStarted => OnServerStarted(s.daemon)
    case Login(k, user, password, session, reuse) => OnLogin(s.daemon, k, user, password, session, reuse).0.daemon
    case GreeterGone => s.daemon.(display := s.daemon.display.(socket := None))
    case Accept => s.daemon
    case Read => AfterFrame(s.daemon, Incoming(s))
    case Reap(text) => OnReap(s.daemon, s.phase.Crashed?, ExitCode(s.phase), text).daemon
  }

  function ExitCode(p: Phase): int { if p.Exited? then p.code else 0 }

  predicate Launches(s: System, e: DaemonEvent) {
    match e
    case Begin(user, session, reuse) => OnStart(s.daemon, user, session, reuse).1
    case Login(k, user, password, session, reuse) => OnLogin(s.daemon, k, user, password, session, reuse).1
    case ServerStarted => false
    case GreeterGone => false
    case Accept => false
    case Read => false
    case Reap(_) => false
  }

  function NotesOf(s: System, e: DaemonEvent): seq<Note>
    requires DaemonEnabled(s, e)
  {
    match e
    case Login(k, user, password, session, reuse) => OnLogin(s.daemon, k, user, password, session, reuse).0.notes
    case Read => NotesFor(s.daemon, Incoming(s))
    case Reap(text) => OnReap(s.daemon, s.phase.Crashed?, ExitCode(s.phase), text).notes
    case Begin(_, _, _) => []
    case ServerStarted => []
    case GreeterGone => []
    case Accept => []
  }

  function LoginEntry(e: DaemonEvent): seq<Entry> {
    if e.Login? then [LoginFrom(e.socket, e.user, e.password)] else []
  }

  function StartEntry(s: System, e: DaemonEvent): seq<Entry>
    requires DaemonEnabled(s, e)
  {
    if Launches(s, e) then [Started(s.run + 1, LaunchOf(DaemonAfter(s, e)))] else []
  }

  /** Messages caused by frames of earlier helpers are logged under run 0. */
  function Cause(s: System, e: DaemonEvent): nat { if e.Read? && !s.connected then 0 else s.run }

  function LogAfter(s: System, e: DaemonEvent): seq<Entry>
    requires DaemonEnabled(s, e)
  {
    s.log + LoginEntry(e) + StartEntry(s, e) + Logged(NotesOf(s, e), Cause(s, e))
  }

  /** A new helper: what the last one left unread stays readable until the new connection is accepted. */
  function Launched(s: System): System {
    var left := if s.connected then s.up else if s.up == [] then [] else s.up[1..];
    s.(run := s.run + 1,
       launch := LaunchOf(s.daemon),
       phase := Connecting, wait := None, connected := false, name := [], renamed := false,
       up := [], down := [], stale := s.stale + left)
  }

  function DaemonStep(loc: Locale, s: System, e: DaemonEvent): System
    requires DaemonEnabled(s, e)
  {
    var t := s.(daemon := DaemonAfter(s, e), begun := s.begun || e.Begin?, log := LogAfter(s, e));
    var hears := e.Read? && s.connected;
    if Launches(s, e) then Launched(t)
    else
      t.(connected := s.connected || e.Accept?,
         up := if hears || e.Accept? then s.up[1..] else s.up,
         stale := if e.Accept? then [] else if e.Read? && !hears then s.stale[1..] else s.stale,
         down := if hears then s.down + RepliesTo(loc, s.daemon, s.up[0]) else s.down,
         renamed := s.renamed || (hears && Obliges(s.up[0]) == Some(Authenticated)))
  }

  predicate Enabled(s: System, e: Event) {
    match e case H(h) => HelperEnabled(s, h) case D(d) => DaemonEnabled(s, d)
  }

  function Step(loc: Locale, s: System, e: Event): System
    requires Enabled(s, e)
  {
    match e case H(h) => HelperStep(s, h) case D(d) => DaemonStep(loc, s, d)
  }

  ghost predicate StepsTo(loc: Locale, p: System, e: Event, s: System) {
    Enabled(p, e) && s == Step(loc, p, e)
  }

  function Front(es: seq<Event>): seq<Event>
    requires es != []
  {
    es[..|es| - 1]
  }

  function Last(es: seq<Event>): Event
    requires es != []
  {
    es[|es| - 1]
  }

  /** The events happen one after the other, each when it can, and lead to the last state. */
  ghost predicate Leads(loc: Locale, es: seq<Event>, s: System) {
    if es == [] then s == INITIAL
    else exists p :: Leads(loc, Front(es), p) && StepsTo(loc, p, Last(es), s)
  }

  ghost predicate Reachable(loc: Locale, s: System) { exists es :: Leads(loc, es, s) }

  // ------------------------------------------------------------- lockstep

  ghost predicate Quiet(fs: seq<HelperFrame>) { forall i | 0 <= i < |fs| :: Obliges(fs[i]).None? }

  /** The blocked helper's message is still on its way. */
  ghost predicate Unheard(s: System) {
    && s.wait.Some? && s.up != [] && s.down == []
    && Obliges(s.up[|s.up| - 1]) == s.wait && Quiet(s.up[..|s.up| - 1])
    && (s.wait == Some(Ask) ==> s.up[|s.up| - 1] == AskFrame(s.asked))
  }

  /** Its reply is on its way. */
  ghost predicate Replied(s: System) {
    && s.wait.Some? && Quiet(s.up) && |s.down| == 1 && DaemonCode(s.down[0]) == s.wait.value
    && (s.wait == Some(Ask) ==> Answerable(s.asked))
  }

  /** The daemon has its request and will never answer it. */
  ghost predicate Stuck(s: System) {
    && s.wait == Some(Ask) && Quiet(s.up) && s.down == [] && s.connected
    && !s.daemon.request.finished && s.daemon.request.prompts == s.asked.prompts && !Answerable(s.asked)
  }

  /** The exchange: a helper that does not wait has no debts, one that waits is owed exactly one reply. */
  ghost predicate Balanced(s: System) {
    && !s.confused
    && Quiet(s.stale) && (s.connected ==> s.stale == [])
    && (!s.phase.Crashed? && s.wait.None? ==> Quiet(s.up) && s.down == [])
    && (s.wait.Some? ==> Alive(s.phase) && (Unheard(s) || Replied(s) || Stuck(s)))
  }

  /** The life of helper, connection and display. */
  ghost predicate Shape(s: System) {
    && (s.daemon.display.started && !s.daemon.auth.active ==> !Alive(s.phase) && !s.phase.Crashed?)
    && (s.daemon.display.serverUp ==> s.daemon.display.started)
    && (!s.begun ==> s.phase.Absent? && !s.daemon.display.started && !s.daemon.auth.active)
    && (Alive(s.phase) && !s.phase.Connecting? && !s.connected ==> s.up != [] && s.up[0].HelloFrame?)
    && (s.phase.Connecting? ==> s.up == [] && s.wait.None? && !s.connected)
  }

  ghost predicate LockInv(s: System) { Balanced(s) && Shape(s) }

  lemma QuietAppend(fs: seq<HelperFrame>, f: HelperFrame)
    requires Quiet(fs)
    ensures (fs + [f])[..|fs|] == fs
    ensures Obliges(f).None? ==> Quiet(fs + [f])
  {
  }

  /** Sending a frame, and waiting exactly if it asks for a reply, keeps the exchange balanced. */
  lemma SendKeepsBalance(s: System, f: HelperFrame, s': System)
    requires Balanced(s) && Alive(s.phase) && s.wait.None?
    requires s'.up == s.up + [f] && s'.wait == Obliges(f) && !s'.phase.Crashed?
    requires f.AskFrame? ==> s'.asked == f.request
    requires s'.wait.Some? ==> Alive(s'.phase)
    requires s'.down == s.down && s'.stale == s.stale && s'.connected == s.connected && s'.confused == s.confused
    ensures Balanced(s')
  {
    QuietAppend(s.up, f);
    assert s'.wait.Some? ==> Unheard(s');
  }

  lemma HelperKeepsBalance(s: System, e: HelperEvent)
    requires LockInv(s) && HelperEnabled(s, e)
    ensures Balanced(HelperStep(s, e))
  {
    var s' := HelperStep(s, e);
    match e {
      case GiveUp(code) =>
      case SendHello(id) => SendKeepsBalance(s, HelloFrame(id), s');
      case StartPam(ok, text) => if !ok { SendKeepsBalance(s, ErrorFrame(text, ErrorInternal), s'); }
      case Tell(f) => SendKeepsBalance(s, f, s');
      case AskDaemon(r) => SendKeepsBalance(s, AskFrame(r), s');
      case CallPam(op, result, text) =>
        if s'.phase.Refused? { SendKeepsBalance(s, ErrorFrame(text, ErrorAuthentication), s'); }
      case SendRefusal => SendKeepsBalance(s, AuthenticatedFrame([]), s');
      case SendAuthenticated(user) => SendKeepsBalance(s, AuthenticatedFrame(user), s');
      case ReportSession(success, error) =>
        var mid := if error.Some? then s.(up := s.up + [error.value]) else s;
        if error.Some? { SendKeepsBalance(s, error.value, mid); }
        assert s'.up == mid.up + [SessionStatusFrame(success)];
        SendKeepsBalance(mid, SessionStatusFrame(success), s');
      case ReportDisplayServer(name) => SendKeepsBalance(s, DisplayServerFrame(name), s');
      case Receive =>
      case Finish =>
      case SessionEnds(code) =>
      case Quit =>
      case Die =>
    }
  }

  lemma HelperKeepsShape(s: System, e: HelperEvent)
    requires LockInv(s) && HelperEnabled(s, e)
    ensures Shape(HelperStep(s, e))
  {
    var s' := HelperStep(s, e);
    assert s'.daemon == s.daemon && s'.begun == s.begun && s'.connected == s.connected;
    assert s.up <= s'.up;
  }

  /** A request only changes the request object, and is kept if it cannot be answered. */
  lemma AskEffect(d: Daemon, r: Request)
    ensures var d' := AfterFrame(d, AskFrame(r));
      && d'.auth == d.auth && d'.display == d.display
      && (!Answerable(r) ==> d'.request == RequestState(r.prompts, false))
  {
  }

  /** No other frame touches the request object, the credentials or the life of the display. */
  lemma OtherEffect(d: Daemon, f: HelperFrame)
    requires !f.AskFrame?
    ensures var d' := AfterFrame(d, f);
      && d'.request == d.request
      && d'.auth == d.auth.(user := d'.auth.user, autologin := d'.auth.autologin)
      && d'.display == d.display.(serverQueued := d'.display.serverQueued, socket := d'.display.socket)
      && (!(f.AuthenticatedFrame? && f.user != []) ==> d'.auth.user == d.auth.user)
  {
  }

  /** It is answered with one reply of the opcode it asks for, or not at all. */
  lemma FrameReplies(loc: Locale, d: Daemon, f: HelperFrame)
    ensures var replies := RepliesTo(loc, d, f);
      if Obliges(f).None? || (f.AskFrame? && !Answerable(f.request)) then replies == []
      else |replies| == 1 && DaemonCode(replies[0]) == Obliges(f).value
  {
  }

  /** Reading the first frame leaves the rest as it was: quiet, or with the same one debt at its end. */
  lemma TailStays(up: seq<HelperFrame>)
    requires up != []
    ensures Quiet(up) ==> Quiet(up[1..])
    ensures Quiet(up[..|up| - 1]) && |up| > 1 ==>
      Obliges(up[0]).None? && up[1..][|up| - 2] == up[|up| - 1] && Quiet(up[1..][..|up| - 2])
    ensures Quiet(up[..|up| - 1]) && |up| == 1 ==> up[1..] == []
  {
    assert forall i | 0 <= i < |up| - 1 :: up[1..][i] == up[i + 1];
    if |up| > 1 {
      assert up[..|up| - 1][0] == up[0];
      assert up[1..][..|up| - 2] == up[..|up| - 1][1..];
    }
  }

  /** A read touches neither the helper nor the life of the display. */
  lemma ReadKeepsShape(loc: Locale, s: System)
    requires Shape(s) && DaemonEnabled(s, Read)
    ensures Shape(DaemonStep(loc, s, Read))
  {
    var f := Incoming(s);
    if f.AskFrame? { AskEffect(s.daemon, f.request); } else { OtherEffect(s.daemon, f); }
  }

  /** Reading the blocked helper's own message turns the debt into a reply, or into a request kept for ever. */
  lemma HearingSettles(loc: Locale, s: System)
    requires Balanced(s) && s.connected && s.up != [] && Unheard(s) && |s.up| == 1
    ensures Balanced(DaemonStep(loc, s, Read))
  {
    var f := s.up[0];
    FrameReplies(loc, s.daemon, f);
    TailStays(s.up);
    if f.AskFrame? { AskEffect(s.daemon, f.request); }
    var s' := DaemonStep(loc, s, Read);
    assert s'.down == RepliesTo(loc, s.daemon, f) && s'.up == [];
    assert Replied(s') || Stuck(s');
  }

  /** Reading any other frame changes nothing in the exchange. */
  lemma HearingPasses(loc: Locale, s: System)
    requires Balanced(s) && s.connected && s.up != [] && !s.phase.Crashed? && !(Unheard(s) && |s.up| == 1)
    ensures Balanced(DaemonStep(loc, s, Read))
  {
    var f := s.up[0];
    TailStays(s.up);
    assert Obliges(f).None?;
    FrameReplies(loc, s.daemon, f);
    OtherEffect(s.daemon, f);
    var s' := DaemonStep(loc, s, Read);
    assert s'.down == s.down && s'.up == s.up[1..] && s'.daemon.request == s.daemon.request;
  }

  lemma ReadKeepsLock(loc: Locale, s: System)
    requires LockInv(s) && DaemonEnabled(s, Read)
    ensures LockInv(DaemonStep(loc, s, Read))
  {
    ReadKeepsShape(loc, s);
    if !s.connected {
      var f := Incoming(s);
      OtherEffect(s.daemon, f);
      TailStays(s.stale);
    } else if !s.phase.Crashed? {
      if Unheard(s) && |s.up| == 1 { HearingSettles(loc, s); } else { HearingPasses(loc, s); }
    }
  }

  lemma LaunchKeepsLock(s: System)
    requires Balanced(s) && !Alive(s.phase) && !s.phase.Crashed?
    requires s.begun && s.daemon.auth.active && (s.daemon.display.serverUp ==> s.daemon.display.started)
    ensures LockInv(Launched(s))
  {
    var left := if s.connected then s.up else if s.up == [] then [] else s.up[1..];
    assert Quiet(left);
  }

  /** A login that does not launch a helper only sets the socket and the pass phrase. */
  lemma LoginEffect(d: Daemon, k: nat, user: QString, password: QString, t: Session, reuse: bool)
    ensures var (e, launched) := OnLogin(d, k, user, password, t, reuse);
      if launched then
        && !d.auth.active && e.daemon.request == d.request
        && e.daemon.display == d.display.(socket := Some(k), passPhrase := password)
        && e.daemon.auth == d.auth.(user := user, active := true,
             sessionPath := e.daemon.auth.sessionPath, environment := e.daemon.auth.environment)
      else
        && e.daemon.auth == d.auth && e.daemon.request == d.request
        && e.daemon.display == d.display.(socket := Some(k), passPhrase := e.daemon.display.passPhrase)
        && (d.auth.active ==> e.daemon.display.passPhrase == d.display.passPhrase)
  {
  }

  /** The first start, with the autologin it may launch. */
  lemma StartEffect(d: Daemon, user: QString, t: Session, reuse: bool)
    requires !d.display.started && !d.auth.active
    ensures var (d', launched) := OnStart(d, user, t, reuse);
      && d'.request == d.request && d'.auth.active == launched
      && d'.display == d.display.(started := true, passPhrase := d'.display.passPhrase,
           serverQueued := d.display.serverQueued || !launched)
      && d'.auth.autologin == (launched || (d.auth.autologin && !t.valid))
  {
  }

  lemma StartKeepsLock(loc: Locale, s: System, e: DaemonEvent)
    requires LockInv(s) && DaemonEnabled(s, e) && (e.Begin? || e.Login?)
    ensures LockInv(DaemonStep(loc, s, e))
  {
    match e {
      case Begin(user, session, reuse) => StartEffect(s.daemon, user, session, reuse);
      case Login(k, user, password, session, reuse) => LoginEffect(s.daemon, k, user, password, session, reuse);
    }
    if Launches(s, e) {
      LaunchKeepsLock(s.(daemon := DaemonAfter(s, e), begun := s.begun || e.Begin?, log := LogAfter(s, e)));
    }
  }

  lemma AcceptKeepsLock(loc: Locale, s: System)
    requires LockInv(s) && DaemonEnabled(s, Accept)
    ensures LockInv(DaemonStep(loc, s, Accept))
  {
    TailStays(s.up);
  }

  lemma DaemonKeepsLock(loc: Locale, s: System, e: DaemonEvent)
    requires LockInv(s) && DaemonEnabled(s, e)
    ensures LockInv(DaemonStep(loc, s, e))
  {
    match e {
      case Begin(_, _, _) => StartKeepsLock(loc, s, e);
      case ServerStarted =>
      case Login(_, _, _, _, _) => StartKeepsLock(loc, s, e);
      case GreeterGone =>
      case Accept => AcceptKeepsLock(loc, s);
      case Read => ReadKeepsLock(loc, s);
      case Reap(_) =>
    }
  }

  // Every reachable state keeps what every step keeps.

  lemma {:induction false} LockAlways(loc: Locale, es: seq<Event>, s: System)
    requires Leads(loc, es, s)
    ensures LockInv(s)
  {
    if es != [] {
      var p :| Leads(loc, Front(es), p) && StepsTo(loc, p, Last(es), s);
      LockAlways(loc, Front(es), p);
      match Last(es) {
        case H(h) =>
          HelperKeepsBalance(p, h);
          HelperKeepsShape(p, h);
        case D(d) => DaemonKeepsLock(loc, p, d);
      }
    }
  }

  /** At most one frame is ever on its way to a live helper, only while it waits, and always with the opcode it
      waits for: no helper ever meets a wrong opcode. */
  lemma Lockstep(loc: Locale, s: System)
    requires Reachable(loc, s)
    ensures !s.confused
    ensures Alive(s.phase) ==> |s.down| <= 1
    ensures Alive(s.phase) && s.down != [] ==> s.wait == Some(DaemonCode(s.down[0]))
  {
    var es :| Leads(loc, es, s);
    LockAlways(loc, es, s);
  }

  /** A blocked helper whose message has been read and who has no reply coming is blocked for ever, and this
      happens exactly to requests with neither one nor two prompts. */
  lemma BlockedMeansUnanswerable(loc: Locale, s: System)
    requires Reachable(loc, s)
    requires s.wait.Some? && s.up == [] && s.down == []
    ensures s.connected && s.wait == Some(Ask) && !Answerable(s.asked)
    ensures !s.daemon.request.finished && s.daemon.request.prompts == s.asked.prompts
  {
    var es :| Leads(loc, es, s);
    LockAlways(loc, es, s);
  }
}
