/** The unframed streams between greeter and daemon: messages written back to back and parsed until the socket
    has no more bytes. */
module GreeterSocket {
  import opened Bytes
  import opened AuthMessages

  datatype GreeterMessage =
    | Connect
    | Login(user: QString, password: QString, sessionType: nat, fileName: QString)
    | UnknownToDaemon(code: nat)

  predicate GreeterSendable(m: GreeterMessage) {
    match m
    case Connect => true
    case Login(u, p, t, f) => StringFits(u) && StringFits(p) && t <= NULL_SIZE && StringFits(f)
    case UnknownToDaemon(_) => false
  }

  predicate DaemonSendable(m: DaemonMessage) {
    match m
    case LoginSucceeded => true
    case LoginFailed => true
    case InformationMessage(t) => StringFits(t)
    case UnknownToGreeter(_) => false
  }

  /** GreeterProxy::connected and GreeterProxy::login. */
  function EncGreeter(m: GreeterMessage): Blob
    requires GreeterSendable(m)
  {
    match m
    case Connect => EncU32(0)
    case Login(u, p, t, f) => EncU32(1) + (EncString(u) + (EncString(p) + (EncU32(t) + EncString(f))))
  }

  /** SocketServer::loginSucceeded, loginFailed and informationMessage. */
  function EncDaemon(m: DaemonMessage): Blob
    requires DaemonSendable(m)
  {
    match m
    case LoginSucceeded => EncU32(0)
    case LoginFailed => EncU32(1)
    case InformationMessage(t) => EncU32(2) + EncString(t)
  }

  function DecLogin(bs: Blob): (r: Read<GreeterMessage>)
    ensures r.Ok? ==> |r.rest| <= |bs|
  {
    var (user, rest) :- DecString(bs);
    var (password, rest) :- DecString(rest);
    var (sessionType, rest) :- DecU32(rest);
    var (fileName, rest) :- DecString(rest);
    Ok(Login(user, password, sessionType, fileName), rest)
  }

  /** One turn of SocketServer::readyRead. */
  function DecGreeter(bs: Blob): (r: Read<GreeterMessage>)
    ensures r.Ok? ==> |r.rest| < |bs|
  {
    var (code, rest) :- DecU32(bs);
    if code == 0 then Ok(Connect, rest)
    else if code == 1 then DecLogin(rest)
    else Ok(UnknownToDaemon(code), rest)
  }

  /** One turn of GreeterProxy::readyRead. */
  function DecDaemon(bs: Blob): (r: Read<DaemonMessage>)
    ensures r.Ok? ==> |r.rest| < |bs|
  {
    var (code, rest) :- DecU32(bs);
    if code == 0 then Ok(LoginSucceeded, rest)
    else if code == 1 then Ok(LoginFailed, rest)
    else if code == 2 then
      var (text, rest) :- DecString(rest);
      Ok(InformationMessage(text), rest)
    else Ok(UnknownToGreeter(code), rest)
  }

  ghost predicate Shrinks<T(!new)>(dec: Blob -> Read<T>) {
    forall bs :: dec(bs).Ok? ==> |dec(bs).rest| < |bs|
  }

  /** All messages of a buffer, up to a first one that is incomplete. */
  ghost function ParseAll<T(!new)>(dec: Blob -> Read<T>, bs: Blob): seq<T>
    requires Shrinks(dec)
    decreases |bs|
  {
    if bs == [] || dec(bs).IsFailure() then [] else [dec(bs).value] + ParseAll(dec, dec(bs).rest)
  }

  function WriteAll<T>(enc: T --> Blob, ms: seq<T>): Blob
    requires forall i | 0 <= i < |ms| :: enc.requires(ms[i])
  {
    if ms == [] then [] else enc(ms[0]) + WriteAll(enc, ms[1..])
  }

  /** The loop that both ends run over what has arrived. */
  method ReadyRead<T(!new)>(dec: Blob -> Read<T>, bs: Blob) returns (events: seq<T>)
    requires Shrinks(dec)
    ensures events == ParseAll(dec, bs)
  {
    events := [];
    var rest := bs;
    while rest != []
      invariant events + ParseAll(dec, rest) == ParseAll(dec, bs)
      decreases |rest|
    {
      var m := dec(rest);
      if m.IsFailure() {
        break;
      }
      assert events + ([m.value] + ParseAll(dec, m.rest)) == events + [m.value] + ParseAll(dec, m.rest);
      events, rest := events + [m.value], m.rest;
    }
  }

  lemma {:induction false} ParseWritten<T(!new)>(enc: T --> Blob, dec: Blob -> Read<T>, ms: seq<T>)
    requires Shrinks(dec)
    requires forall i | 0 <= i < |ms| :: enc.requires(ms[i])
    requires forall m, tail | enc.requires(m) :: dec(enc(m) + tail) == Ok(m, tail)
    ensures ParseAll(dec, WriteAll(enc, ms)) == ms
  {
    if ms != [] {
      var bs, tail := WriteAll(enc, ms), WriteAll(enc, ms[1..]);
      assert dec(bs) == Ok(ms[0], tail);
      assert |dec(bs).rest| < |bs|;
      ParseWritten(enc, dec, ms[1..]);
    }
  }

  lemma LoginRoundTrip(u: QString, p: QString, t: nat, f: QString, rest: Blob)
    requires GreeterSendable(Login(u, p, t, f))
    ensures DecLogin(EncString(u) + (EncString(p) + (EncU32(t) + EncString(f))) + rest)
         == Ok(Login(u, p, t, f), rest)
  {
    var r3 := EncString(f) + rest;
    var r2 := EncU32(t) + r3;
    var r1 := EncString(p) + r2;
    Assoc(EncU32(t), EncString(f), rest);
    Assoc(EncString(p), EncU32(t) + EncString(f), rest);
    Assoc(EncString(u), EncString(p) + (EncU32(t) + EncString(f)), rest);
    StringRoundTrip(u, r1);
    StringRoundTrip(p, r2);
    U32RoundTrip(t, r3);
    StringRoundTrip(f, rest);
  }

  lemma GreeterRoundTrip(m: GreeterMessage, rest: Blob)
    requires GreeterSendable(m)
    ensures DecGreeter(EncGreeter(m) + rest) == Ok(m, rest)
  {
    match m {
      case Connect => U32RoundTrip(0, rest);
      case Login(u, p, t, f) =>
        var body := EncString(u) + (EncString(p) + (EncU32(t) + EncString(f)));
        Assoc(EncU32(1), body, rest);
        U32RoundTrip(1, body + rest);
        LoginRoundTrip(u, p, t, f, rest);
    }
  }

  lemma DaemonRoundTrip(m: DaemonMessage, rest: Blob)
    requires DaemonSendable(m)
    ensures DecDaemon(EncDaemon(m) + rest) == Ok(m, rest)
  {
    match m {
      case LoginSucceeded => U32RoundTrip(0, rest);
      case LoginFailed => U32RoundTrip(1, rest);
      case InformationMessage(t) =>
        Assoc(EncU32(2), EncString(t), rest);
        U32RoundTrip(2, EncString(t) + rest);
        StringRoundTrip(t, rest);
    }
  }

  /** Whatever a greeter writes, the daemon reads as the same list of messages. */
  lemma GreeterStream(ms: seq<GreeterMessage>)
    requires forall i | 0 <= i < |ms| :: GreeterSendable(ms[i])
    ensures Shrinks(DecGreeter) && ParseAll(DecGreeter, WriteAll(EncGreeter, ms)) == ms
  {
    forall m, tail | EncGreeter.requires(m) ensures DecGreeter(EncGreeter(m) + tail) == Ok(m, tail) {
      GreeterRoundTrip(m, tail);
    }
    ParseWritten(EncGreeter, DecGreeter, ms);
  }

  /** And the other way round. */
  lemma DaemonStream(ms: seq<DaemonMessage>)
    requires forall i | 0 <= i < |ms| :: DaemonSendable(ms[i])
    ensures Shrinks(DecDaemon) && ParseAll(DecDaemon, WriteAll(EncDaemon, ms)) == ms
  {
    forall m, tail | EncDaemon.requires(m) ensures DecDaemon(EncDaemon(m) + tail) == Ok(m, tail) {
      DaemonRoundTrip(m, tail);
    }
    ParseWritten(EncDaemon, DecDaemon, ms);
  }
}
