/** The frames of the helper protocol and their payloads. */
module AuthWire {
  import opened Bytes
  import opened AuthMessages
  import opened PamData

  datatype ErrorKind = ErrorNone | ErrorUnknown | ErrorAuthentication | ErrorInternal

  datatype HelperFrame =
    | HelloFrame(id: int64)
    | ErrorFrame(message: QString, error: ErrorKind)
    | InfoFrame(message: QString, info: InfoKind)
    | AskFrame(request: Request)
    | AuthenticatedFrame(user: QString)
    | SessionStatusFrame(ok: bool)
    | DisplayServerFrame(name: QString)

  /** The environment travels as its string list. */
  datatype DaemonFrame =
    | AnswerFrame(request: Request)
    | EnvironmentFrame(variables: seq<QString>)
    | SessionStatusAck
    | DisplayServerAck

  function HelperCode(f: HelperFrame): Msg {
    match f
    case HelloFrame(_) => Hello
    case ErrorFrame(_, _) => Error
    case InfoFrame(_, _) => Info
    case AskFrame(_) => Ask
    case AuthenticatedFrame(_) => Authenticated
    case SessionStatusFrame(_) => SessionStatus
    case DisplayServerFrame(_) => DisplayServerStarted
  }

  function DaemonCode(f: DaemonFrame): Msg {
    match f
    case AnswerFrame(_) => Ask
    case EnvironmentFrame(_) => Authenticated
    case SessionStatusAck => SessionStatus
    case DisplayServerAck => DisplayServerStarted
  }

  function ErrorCode(k: ErrorKind): int32 {
    match k case ErrorNone => 0 case ErrorUnknown => 1 case ErrorAuthentication => 2 case ErrorInternal => 3
  }

  function InfoCode(k: InfoKind): int32 {
    match k case InfoNone => 0 case InfoUnknown => 1 case InfoPassChangeRequired => 2
  }

  function ErrorOf(code: int32): ErrorKind {
    if code == 1 then ErrorUnknown else if code == 2 then ErrorAuthentication else if code == 3 then ErrorInternal
    else ErrorNone
  }

  function InfoOf(code: int32): InfoKind {
    if code == 1 then InfoUnknown else if code == 2 then InfoPassChangeRequired else InfoNone
  }

  /** A message text followed by an enumerator below `last`. */
  function EncCoded(m: QString, code: int32): Blob
    requires StringFits(m)
  {
    EncString(m) + EncI32(code)
  }

  function DecCoded(last: int, bs: Blob): Read<(QString, int32)> {
    var (m, rest) :- DecString(bs);
    var (code, rest) :- DecI32(rest);
    if 0 <= code < last then Ok((m, code), rest) else Corrupt
  }

  predicate HelperFits(f: HelperFrame) {
    match f
    case HelloFrame(_) => true
    case ErrorFrame(m, _) => StringFits(m)
    case InfoFrame(m, _) => StringFits(m)
    case AskFrame(r) => RequestFits(r)
    case AuthenticatedFrame(u) => StringFits(u)
    case SessionStatusFrame(_) => true
    case DisplayServerFrame(n) => StringFits(n)
  }

  predicate DaemonFits(f: DaemonFrame) {
    match f
    case AnswerFrame(r) => RequestFits(r)
    case EnvironmentFrame(l) => StringsFit(l)
    case SessionStatusAck => true
    case DisplayServerAck => true
  }

  function HelperBody(f: HelperFrame): Blob
    requires HelperFits(f)
  {
    match f
    case HelloFrame(id) => EncI64(id)
    case ErrorFrame(m, k) => EncCoded(m, ErrorCode(k))
    case InfoFrame(m, k) => EncCoded(m, InfoCode(k))
    case AskFrame(r) => EncRequest(r)
    case AuthenticatedFrame(u) => EncString(u)
    case SessionStatusFrame(ok) => EncBool(ok)
    case DisplayServerFrame(n) => EncString(n)
  }

  function EncHelper(f: HelperFrame): Blob
    requires HelperFits(f)
  {
    EncMsg(HelperCode(f)) + HelperBody(f)
  }

  function DecHelperBody(m: Msg, bs: Blob): Read<HelperFrame> {
    match m
    case Hello =>
      var (id, rest) :- DecI64(bs);
      Ok(HelloFrame(id), rest)
    case Error =>
      var (t, rest) :- DecCoded(4, bs);
      Ok(ErrorFrame(t.0, ErrorOf(t.1)), rest)
    case Info =>
      var (t, rest) :- DecCoded(3, bs);
      Ok(InfoFrame(t.0, InfoOf(t.1)), rest)
    case Ask =>
      var (r, rest) :- DecRequest(bs);
      Ok(AskFrame(r), rest)
    case Authenticated =>
      var (u, rest) :- DecString(bs);
      Ok(AuthenticatedFrame(u), rest)
    case SessionStatus =>
      var (ok, rest) :- DecBool(bs);
      Ok(SessionStatusFrame(ok), rest)
    case DisplayServerStarted =>
      var (n, rest) :- DecString(bs);
      Ok(DisplayServerFrame(n), rest)
  }

  function DecHelper(bs: Blob): Read<HelperFrame> {
    var (m, rest) :- DecMsg(bs);
    DecHelperBody(m, rest)
  }

  function DaemonBody(f: DaemonFrame): Blob
    requires DaemonFits(f)
  {
    match f
    case AnswerFrame(r) => EncRequest(r)
    case EnvironmentFrame(l) => EncStringList(l)
    case SessionStatusAck => []
    case DisplayServerAck => []
  }

  function EncDaemon(f: DaemonFrame): Blob
    requires DaemonFits(f)
  {
    EncMsg(DaemonCode(f)) + DaemonBody(f)
  }

  function DecDaemon(bs: Blob): Read<DaemonFrame> {
    var (m, rest) :- DecMsg(bs);
    match m
    case Ask =>
      var (r, rest) :- DecRequest(rest);
      Ok(AnswerFrame(r), rest)
    case Authenticated =>
      var (l, rest) :- DecStringList(rest);
      Ok(EnvironmentFrame(l), rest)
    case SessionStatus => Ok(SessionStatusAck, rest)
    case DisplayServerStarted => Ok(DisplayServerAck, rest)
    case Hello => Corrupt
    case Error => Corrupt
    case Info => Corrupt
  }

  lemma CodedRoundTrip(m: QString, code: int32, last: int, rest: Blob)
    requires StringFits(m) && 0 <= code < last
    ensures DecCoded(last, EncCoded(m, code) + rest) == Ok((m, code), rest)
  {
    Assoc(EncString(m), EncI32(code), rest);
    StringRoundTrip(m, EncI32(code) + rest);
    I32RoundTrip(code, rest);
  }

  lemma ErrorRoundTrip(m: QString, k: ErrorKind, rest: Blob)
    requires StringFits(m)
    ensures DecHelperBody(Error, HelperBody(ErrorFrame(m, k)) + rest) == Ok(ErrorFrame(m, k), rest)
  {
    CodedRoundTrip(m, ErrorCode(k), 4, rest);
  }

  lemma InfoRoundTrip(m: QString, k: InfoKind, rest: Blob)
    requires StringFits(m)
    ensures DecHelperBody(Info, HelperBody(InfoFrame(m, k)) + rest) == Ok(InfoFrame(m, k), rest)
  {
    CodedRoundTrip(m, InfoCode(k), 3, rest);
  }

  lemma AskRoundTrip(r: Request, rest: Blob)
    requires RequestFits(r)
    ensures DecHelperBody(Ask, HelperBody(AskFrame(r)) + rest) == Ok(AskFrame(r), rest)
  {
    RequestRoundTrip(r, rest);
  }

  lemma BodyRoundTrip(f: HelperFrame, rest: Blob)
    requires HelperFits(f)
    ensures DecHelperBody(HelperCode(f), HelperBody(f) + rest) == Ok(f, rest)
  {
    match f {
      case HelloFrame(id) => I64RoundTrip(id, rest);
      case ErrorFrame(m, k) => ErrorRoundTrip(m, k, rest);
      case InfoFrame(m, k) => InfoRoundTrip(m, k, rest);
      case AskFrame(r) => AskRoundTrip(r, rest);
      case AuthenticatedFrame(u) => StringRoundTrip(u, rest);
      case SessionStatusFrame(ok) => BoolRoundTrip(ok, rest);
      case DisplayServerFrame(n) => StringRoundTrip(n, rest);
    }
  }

  /** Every frame the helper can send is read back as itself, and nothing after it is touched. */
  lemma HelperRoundTrip(f: HelperFrame, rest: Blob)
    requires HelperFits(f)
    ensures DecHelper(EncHelper(f) + rest) == Ok(f, rest)
  {
    Assoc(EncMsg(HelperCode(f)), HelperBody(f), rest);
    MsgRoundTrip(HelperCode(f), 0, HelperBody(f) + rest);
    BodyRoundTrip(f, rest);
  }

  /** The same for the daemon's replies. */
  lemma DaemonRoundTrip(f: DaemonFrame, rest: Blob)
    requires DaemonFits(f)
    ensures DecDaemon(EncDaemon(f) + rest) == Ok(f, rest)
  {
    Assoc(EncMsg(DaemonCode(f)), DaemonBody(f), rest);
    MsgRoundTrip(DaemonCode(f), 0, DaemonBody(f) + rest);
    match f {
      case AnswerFrame(r) => RequestRoundTrip(r, rest);
      case EnvironmentFrame(l) => StringListRoundTrip(l, rest);
      case SessionStatusAck =>
      case DisplayServerAck =>
    }
  }
}
