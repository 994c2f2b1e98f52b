/** The daemon's half of a login: Auth::Private, AuthRequest and the slots of Display, which run in one thread
    and call each other through directly connected signals. */
module LoginDaemon {
  import opened Bytes
  import opened AuthMessages
  import opened PamData
  import opened AuthWire

  datatype Option<+T> = None | Some(value: T)

  /** A message written to a greeter's socket. `verdict` marks those of slotAuthenticationFinished. */
  datatype Note = Note(socket: nat, msg: DaemonMessage, verdict: bool)

  /** What startAuth looks at in a session. */
  datatype Session = Session(valid: bool, sessionType: QString, exec: QString, environment: Environment)

  /** Auth::Private and the state of its process. */
  datatype AuthState = AuthState(
    user: QString, sessionPath: QString, environment: Environment, autologin: bool, greeter: bool, active: bool)

  /** AuthRequest. */
  datatype RequestState = RequestState(prompts: seq<Prompt>, finished: bool)

  /** Display and its socket server; serverQueued: displayServerStarted is in the event queue. */
  datatype DisplayState = DisplayState(
    passPhrase: QString, socket: Option<nat>, started: bool, serverQueued: bool, serverUp: bool)

  datatype Daemon = Daemon(auth: AuthState, request: RequestState, display: DisplayState)

  const IDLE := Daemon(AuthState([], [], map[], false, false, false), RequestState([], true),
                       DisplayState([], None, false, false, false))

  /** What one event does: the new state, the frames sent to the helper, the messages sent to greeters. */
  datatype Effect = Effect(daemon: Daemon, replies: seq<DaemonFrame>, notes: seq<Note>)

  const HELPER_AUTH_ERROR := 1
  const HELPER_OTHER_ERROR := 3

  /** QProcessEnvironment::toStringList in some order, and qPrintable. */
  datatype Locale = Locale(printable: QString -> Blob, variables: Environment -> seq<QString>)

  /** The answers of slotRequestChanged, by position. */
  function Fill(printable: QString -> Blob, user: QString, pass: QString, r: Request): Request {
    if |r.prompts| == 1 then Request([r.prompts[0].(response := printable(pass))])
    else if |r.prompts| == 2 then
      Request([r.prompts[0].(response := printable(user)), r.prompts[1].(response := printable(pass))])
    else r
  }

  predicate Answerable(r: Request) { |r.prompts| == 1 || |r.prompts| == 2 }

  // What each frame does, in three parts.

  /** A request is answered at once or kept for ever. */
  function AfterAsk(d: Daemon, r: Request): Daemon {
    d.(request := if Answerable(r) then RequestState([], true) else RequestState(r.prompts, false))
  }

  /** handleAutologinFailure. */
  function FallBack(d: Daemon): Daemon {
    d.(auth := d.auth.(autologin := false), display := d.display.(serverQueued := true))
  }

  function AfterAuthentication(d: Daemon, success: bool): Daemon {
    if d.auth.autologin && !success then FallBack(d) else d.(display := d.display.(socket := None))
  }

  function AfterFrame(d: Daemon, f: HelperFrame): Daemon {
    match f
    case AskFrame(r) => AfterAsk(d, r)
    case AuthenticatedFrame(u) =>
      if u != [] then AfterAuthentication(d.(auth := d.auth.(user := u)), true) else AfterAuthentication(d, false)
    case ErrorFrame(_, _) => d
    case InfoFrame(_, _) => d
    case SessionStatusFrame(_) => d
    case DisplayServerFrame(_) => d
    case HelloFrame(_) => d
  }

  function RepliesTo(loc: Locale, d: Daemon, f: HelperFrame): seq<DaemonFrame> {
    match f
    case AskFrame(r) =>
      if Answerable(r) then [AnswerFrame(Fill(loc.printable, d.auth.user, d.display.passPhrase, r))] else []
    case AuthenticatedFrame(u) => if u != [] then [EnvironmentFrame(loc.variables(d.auth.environment))] else []
    case SessionStatusFrame(_) => [SessionStatusAck]
    case DisplayServerFrame(_) => [DisplayServerAck]
    case ErrorFrame(_, _) => []
    case InfoFrame(_, _) => []
    case HelloFrame(_) => []
  }

  function Inform(d: Daemon, text: QString): seq<Note> {
    if d.display.socket.Some? then [Note(d.display.socket.value, InformationMessage(text), false)] else []
  }

  function ErrorNotes(d: Daemon, text: QString, k: ErrorKind): seq<Note> {
    Inform(d, text)
    + (if d.display.socket.Some? && k == ErrorAuthentication then [Note(d.display.socket.value, LoginFailed, false)]
       else [])
  }

  function VerdictNotes(d: Daemon, success: bool): seq<Note> {
    if d.display.socket.None? || (d.auth.autologin && !success) then []
    else [Note(d.display.socket.value, if success then LoginSucceeded else LoginFailed, true)]
  }

  const UNEXPECTED := Text("Auth: Unexpected value received: 1")

  function NotesFor(d: Daemon, f: HelperFrame): seq<Note> {
    match f
    case ErrorFrame(m, k) => ErrorNotes(d, m, k)
    case InfoFrame(m, _) => Inform(d, m)
    case AuthenticatedFrame(u) => VerdictNotes(d, u != [])
    case HelloFrame(_) => ErrorNotes(d, UNEXPECTED, ErrorInternal)
    case AskFrame(_) => []
    case SessionStatusFrame(_) => []
    case DisplayServerFrame(_) => []
  }

  /** One frame of dataPending. */
  function OnFrame(loc: Locale, d: Daemon, f: HelperFrame): Effect {
    Effect(AfterFrame(d, f), RepliesTo(loc, d, f), NotesFor(d, f))
  }

  function OnFrames(loc: Locale, d: Daemon, fs: seq<HelperFrame>): Effect {
    if fs == [] then Effect(d, [], [])
    else
      var e := OnFrames(loc, d, fs[..|fs| - 1]);
      var f := OnFrame(loc, e.daemon, fs[|fs| - 1]);
      Effect(f.daemon, e.replies + f.replies, e.notes + f.notes)
  }

  /** startAuth; the result says whether a helper was launched. */
  function StartAuth(d: Daemon, user: QString, password: QString, s: Session, reuse: bool): (Daemon, bool) {
    if d.auth.active then (d, false)
    else
      var d := d.(display := d.display.(passPhrase := password));
      if !s.valid || s.sessionType == [] || s.exec == [] then (d, false)
      else
        (d.(auth := AuthState(user, if reuse then d.auth.sessionPath else s.exec,
                              d.auth.environment + s.environment, d.auth.autologin, d.auth.greeter, true)), true)
  }

  /** Display::login. */
  function OnLogin(d: Daemon, k: nat, user: QString, password: QString, s: Session, reuse: bool)
    : (Effect, bool)
  {
    var d := d.(display := d.display.(socket := Some(k)));
    if user == PLASMALOGIN then (Effect(d, [], [Note(k, LoginFailed, false)]), false)
    else
      var (d', launched) := StartAuth(d, user, password, s, reuse);
      (Effect(d', [], []), launched)
  }

  /** Display::start with the configured autologin session. */
  function OnStart(d: Daemon, user: QString, s: Session, reuse: bool): (Daemon, bool) {
    if d.display.started then (d, false)
    else
      var d := d.(display := d.display.(started := true));
      if s.valid then
        var (d', launched) := StartAuth(d.(auth := d.auth.(autologin := true)), user, [], s, reuse);
        if launched then (d', true) else (FallBack(d'), false)
      else (d.(display := d.display.(serverQueued := true)), false)
  }

  /** displayServerStarted: the socket server comes up. */
  function OnServerStarted(d: Daemon): Daemon {
    d.(display := d.display.(serverQueued := false, serverUp := true))
  }

  /** childError. */
  function OnChildError(d: Daemon, text: QString): Effect { Effect(d, [], Inform(d, text)) }

  /** childExited and slotHelperFinished: a crash counts as another error and is reported. */
  function OnExit(d: Daemon, crashed: bool, code: int, text: QString): Effect {
    var notes := if crashed then Inform(d, text) else [];
    var d := d.(auth := d.auth.(active := false));
    if crashed || code != HELPER_AUTH_ERROR then
      Effect(d.(display := d.display.(started := false, serverUp := false)), [], notes)
    else Effect(d, [], notes)
  }

  /** The end of a helper process: a crash signals an error as well as the exit. */
  function OnReap(d: Daemon, crashed: bool, code: int, text: QString): Effect {
    var notes := if crashed then OnChildError(d, text).notes else [];
    var e := OnExit(d, crashed, code, text);
    e.(notes := notes + e.notes)
  }

  lemma Chain<T>(a: seq<T>, b: seq<T>, c: seq<T>)
    ensures a + b + c == a + (b + c)
  {
  }

  lemma FramesMore(loc: Locale, d: Daemon, fs: seq<HelperFrame>, f: HelperFrame)
    ensures var e := OnFrames(loc, d, fs);
      var g := OnFrame(loc, e.daemon, f);
      OnFrames(loc, d, fs + [f]) == Effect(g.daemon, e.replies + g.replies, e.notes + g.notes)
  {
    assert (fs + [f])[..|fs|] == fs;
  }

  /** Frames are handled one by one: what several do is what the first do and then the others. */
  lemma {:induction false} FramesInTurn(loc: Locale, d: Daemon, fs: seq<HelperFrame>, gs: seq<HelperFrame>)
    ensures var e := OnFrames(loc, d, fs);
      var f := OnFrames(loc, e.daemon, gs);
      OnFrames(loc, d, fs + gs) == Effect(f.daemon, e.replies + f.replies, e.notes + f.notes)
    decreases |gs|
  {
    var e := OnFrames(loc, d, fs);
    if gs == [] {
      assert fs + gs == fs && e.replies + [] == e.replies && e.notes + [] == e.notes;
    } else {
      var front, g := gs[..|gs| - 1], gs[|gs| - 1];
      FramesInTurn(loc, d, fs, front);
      FramesMore(loc, d, fs + front, g);
      FramesMore(loc, e.daemon, front, g);
      assert front + [g] == gs && fs + front + [g] == fs + gs;
      var mid := OnFrames(loc, e.daemon, front);
      var last := OnFrame(loc, mid.daemon, g);
      Chain(e.replies, mid.replies, last.replies);
      Chain(e.notes, mid.notes, last.notes);
    }
  }

  lemma OneFrame(loc: Locale, d: Daemon, f: HelperFrame)
    ensures OnFrames(loc, d, [f]) == OnFrame(loc, d, f)
  {
    assert [f][..0] == [] && OnFrames(loc, d, [f][..0]) == Effect(d, [], []);
  }

  /** The variables of a session, over those of before. */
  ghost predicate Merged(before: Environment, session: Environment, after: Environment) {
    forall v :: if v in session then v in after && after[v] == session[v]
                else if v in before then v in after && after[v] == before[v]
                else v !in after
  }

  /** A helper launched by a login or by the first start has every variable of its session; variables that the
      session does not set stay as they were for the last helper. Without a launch nothing changes. */
  lemma SessionEnvironmentWins(d: Daemon, k: nat, user: QString, password: QString, t: Session, reuse: bool)
    ensures var (e, launched) := OnLogin(d, k, user, password, t, reuse);
      if launched then Merged(d.auth.environment, t.environment, e.daemon.auth.environment)
      else e.daemon.auth.environment == d.auth.environment
    ensures var (d', launched) := OnStart(d, user, t, reuse);
      if launched then Merged(d.auth.environment, t.environment, d'.auth.environment)
      else d'.auth.environment == d.auth.environment
  {
    assert Merged(d.auth.environment, t.environment, d.auth.environment + t.environment);
  }

  class LoginDaemon {
    const loc: Locale
    var user: QString
    var passPhrase: QString
    var sessionPath: QString
    var environment: Environment
    var autologin: bool
    var greeter: bool
    var active: bool
    var prompts: seq<Prompt>
    var finished: bool
    var socket: Option<nat>
    var started: bool
    var serverQueued: bool
    var serverUp: bool
    var replies: seq<DaemonFrame>
    var notes: seq<Note>

    constructor (loc: Locale)
      ensures this.loc == loc && Model() == IDLE && replies == [] && notes == []
    {
      this.loc := loc;
      user, passPhrase, sessionPath, environment := [], [], [], map[];
      autologin, greeter, active := false, false, false;
      prompts, finished, socket, started, serverQueued, serverUp := [], true, None, false, false, false;
      replies, notes := [], [];
    }

    function Model(): Daemon
      reads this
    {
      Daemon(AuthState(user, sessionPath, environment, autologin, greeter, active), RequestState(prompts, finished),
             DisplayState(passPhrase, socket, started, serverQueued, serverUp))
    }

    twostate predicate Did(e: Effect)
      reads this
    {
      Model() == e.daemon && replies == old(replies) + e.replies && notes == old(notes) + e.notes
    }

    // AuthRequest and Auth::Private. The signals nest: setRequest, requestChanged, done, finished,
    // requestFinished, and setRequest again with nothing.

    method SetRequest(r: Option<Request>)
      modifies this`prompts, this`finished, this`replies
      ensures r.Some? && Answerable(r.value) ==>
        && prompts == [] && finished
        && replies == old(replies) + [AnswerFrame(Fill(loc.printable, user, passPhrase, r.value))]
      ensures r.Some? && !Answerable(r.value) ==>
        prompts == r.value.prompts && !finished && replies == old(replies)
      ensures r.None? ==> prompts == [] && finished == old(finished) && replies == old(replies)
      decreases if r.Some? then 1 else 0, 3
    {
      prompts := [];
      if r.Some? {
        prompts := r.value.prompts;
        finished := false;
      }
      SlotRequestChanged();
    }

    method SlotRequestChanged()
      requires prompts != [] ==> !finished
      modifies this`prompts, this`finished, this`replies
      ensures Answerable(Request(old(prompts))) ==>
        && prompts == [] && finished
        && replies == old(replies) + [AnswerFrame(Fill(loc.printable, user, passPhrase, Request(old(prompts))))]
      ensures !Answerable(Request(old(prompts))) ==>
        prompts == old(prompts) && finished == old(finished) && replies == old(replies)
      decreases if prompts == [] then 0 else 1, 2
    {
      ghost var answer := Fill(loc.printable, user, passPhrase, Request(prompts));
      if |prompts| == 1 {
        prompts := prompts[0 := prompts[0].(response := loc.printable(passPhrase))];
        assert Request(prompts) == answer;
        Done();
      } else if |prompts| == 2 {
        prompts := prompts[0 := prompts[0].(response := loc.printable(user))];
        prompts := prompts[1 := prompts[1].(response := loc.printable(passPhrase))];
        assert Request(prompts) == answer;
        Done();
      }
    }

    /** Emits finished at most once per request. */
    method Done()
      modifies this`prompts, this`finished, this`replies
      ensures finished && prompts == (if old(finished) then old(prompts) else [])
      ensures replies == old(replies) + (if old(finished) then [] else [AnswerFrame(Request(old(prompts)))])
      decreases 1, 1
    {
      if !finished {
        finished := true;
        RequestFinished();
      }
    }

    method RequestFinished()
      modifies this`prompts, this`finished, this`replies
      ensures prompts == [] && finished == old(finished)
      ensures replies == old(replies) + [AnswerFrame(Request(old(prompts)))]
      decreases 1, 0
    {
      var r := CurrentRequest();
      replies := replies + [AnswerFrame(r)];
      SetRequest(None);
    }

    /** Copies the prompts field by field. */
    method CurrentRequest() returns (r: Request)
      ensures r == Request(prompts)
    {
      var copy: seq<Prompt> := [];
      for i := 0 to |prompts|
        invariant copy == prompts[..i]
      {
        var p := INVALID_PROMPT;
        p := p.(hidden := prompts[i].hidden);
        p := p.(message := prompts[i].message);
        p := p.(response := prompts[i].response);
        p := p.(kind := prompts[i].kind);
        copy := copy + [p];
      }
      return Request(copy);
    }

    /** Handles the frames that have arrived, one by one. */
    method DataPending(frames: seq<HelperFrame>)
      modifies this
      ensures Did(OnFrames(loc, old(Model()), frames))
    {
      ghost var done := Effect(Model(), [], []);
      for i := 0 to |frames|
        invariant done == OnFrames(loc, old(Model()), frames[..i]) && Did(done)
      {
        assert frames[..i + 1][..i] == frames[..i];
        ghost var next := OnFrame(loc, done.daemon, frames[i]);
        HandleFrame(frames[i]);
        Chain(old(replies), done.replies, next.replies);
        Chain(old(notes), done.notes, next.notes);
        done := Effect(next.daemon, done.replies + next.replies, done.notes + next.notes);
      }
      assert frames[..|frames|] == frames;
    }

    method HandleFrame(f: HelperFrame)
      modifies this
      ensures Did(OnFrame(loc, old(Model()), f))
      ensures f.InfoFrame? ==>
        && Model() == old(Model()) && replies == old(replies)
        && notes == old(notes)
             + if socket.Some? then [Note(socket.value, InformationMessage(f.message), false)] else []
    {
      match f {
        case ErrorFrame(m, k) => SlotAuthError(m, k);
        case InfoFrame(m, _) => SlotAuthInfo(m);
        case AskFrame(r) => SetRequest(Some(r));
        case AuthenticatedFrame(u) =>
          Authenticated(u);
        case SessionStatusFrame(_) => replies := replies + [SessionStatusAck];
        case DisplayServerFrame(_) => replies := replies + [DisplayServerAck];
        case HelloFrame(_) => SlotAuthError(UNEXPECTED, ErrorInternal);
      }
    }

    /** The AUTHENTICATED branch: an empty name is a failure and gets no reply. */
    method Authenticated(u: QString)
      modifies this
      ensures Did(OnFrame(loc, old(Model()), AuthenticatedFrame(u)))
    {
      if u != [] {
        user := u;
        SlotAuthenticationFinished(true);
        replies := replies + [EnvironmentFrame(loc.variables(environment))];
      } else {
        SlotAuthenticationFinished(false);
      }
    }

    // The slots of Display.

    method SlotAuthenticationFinished(success: bool)
      modifies this`autologin, this`serverQueued, this`socket, this`notes
      ensures Did(Effect(AfterAuthentication(old(Model()), success), [], VerdictNotes(old(Model()), success)))
    {
      if autologin && !success {
        HandleAutologinFailure();
        return;
      }
      if success {
        if socket.Some? {
          notes := notes + [Note(socket.value, LoginSucceeded, true)];
        }
      } else if socket.Some? {
        notes := notes + [Note(socket.value, LoginFailed, true)];
      }
      socket := None;
    }

    method SlotAuthInfo(text: QString)
      modifies this`notes
      ensures Did(Effect(old(Model()), [], Inform(old(Model()), text)))
    {
      if socket.None? {
        return;
      }
      notes := notes + [Note(socket.value, InformationMessage(text), false)];
    }

    method SlotAuthError(text: QString, k: ErrorKind)
      modifies this`notes
      ensures Did(Effect(old(Model()), [], ErrorNotes(old(Model()), text, k)))
    {
      if socket.None? {
        return;
      }
      notes := notes + [Note(socket.value, InformationMessage(text), false)];
      if k == ErrorAuthentication {
        notes := notes + [Note(socket.value, LoginFailed, false)];
      }
    }

    method HandleAutologinFailure()
      modifies this`autologin, this`serverQueued
      ensures Model() == FallBack(old(Model()))
    {
      autologin, serverQueued := false, true;
    }

    method TryStartAuth(user: QString, password: QString, s: Session, reuse: bool) returns (launched: bool)
      modifies this`user, this`passPhrase, this`sessionPath, this`environment, this`active
      ensures (Model(), launched) == StartAuth(old(Model()), user, password, s, reuse)
    {
      if active {
        return false;
      }
      passPhrase := password;
      if !s.valid {
        return false;
      }
      if s.sessionType == [] {
        return false;
      }
      if s.exec == [] {
        return false;
      }
      this.user := user;
      if !reuse {
        sessionPath := s.exec;
      }
      environment := environment + s.environment;
      active := true;
      return true;
    }

    method Login(k: nat, user: QString, password: QString, s: Session, reuse: bool) returns (launched: bool)
      modifies this
      ensures var (e, l) := OnLogin(old(Model()), k, user, password, s, reuse); Did(e) && launched == l
    {
      socket := Some(k);
      if user == PLASMALOGIN {
        notes := notes + [Note(k, LoginFailed, false)];
        return false;
      }
      launched := TryStartAuth(user, password, s, reuse);
    }

    method Start(autologinUser: QString, s: Session, reuse: bool) returns (launched: bool)
      modifies this
      ensures (Model(), launched) == OnStart(old(Model()), autologinUser, s, reuse)
      ensures old(started) ==> !launched && Model() == old(Model())
      ensures replies == old(replies) && notes == old(notes)
    {
      if started {
        return false;
      }
      started := true;
      if s.valid {
        autologin := true;
        launched := TryStartAuth(autologinUser, [], s, reuse);
        if !launched {
          HandleAutologinFailure();
        }
        return;
      }
      serverQueued := true;
      launched := false;
    }

    method ChildError(text: QString)
      modifies this
      ensures Did(OnChildError(old(Model()), text))
    {
      SlotAuthError(text, ErrorInternal);
    }

    method ChildExited(crashed: bool, code: int, text: QString)
      modifies this
      ensures Did(OnExit(old(Model()), crashed, code, text))
    {
      active := false;
      if crashed {
        SlotAuthError(text, ErrorInternal);
        SlotHelperFinished(HELPER_OTHER_ERROR);
        return;
      }
      SlotHelperFinished(code);
    }

    /** The display stops, unless the login was refused. */
    method SlotHelperFinished(status: int)
      modifies this`started, this`serverUp
      ensures if status == HELPER_AUTH_ERROR then started == old(started) && serverUp == old(serverUp)
              else !started && !serverUp
    {
      if status != HELPER_AUTH_ERROR {
        serverUp, started := false, false;
      }
    }

    /** QProcess reports a crash first as an error and then as an exit. */
    method Reap(crashed: bool, code: int, text: QString)
      modifies this
      ensures Did(OnReap(old(Model()), crashed, code, text))
    {
      ghost var first := if crashed then OnChildError(Model(), text).notes else [];
      if crashed {
        ChildError(text);
      }
      ChildExited(crashed, code, text);
      Chain(old(notes), first, OnExit(old(Model()), crashed, code, text).notes);
    }
  }
}
