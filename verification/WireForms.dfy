/** What the bytes on the sockets are, in literal numbers, and the second form that a null string or byte array has
    on the wire: it reads as the empty value. A default response is null, and so is the name that a refused login
    reports. */
module WireForms {
  import opened Bytes
  import opened AuthMessages
  import opened PamData
  import opened AuthWire
  import SafeDataStream
  import GreeterSocket

  const NULL_FORM: Blob := [0xFF, 0xFF, 0xFF, 0xFF]

  lemma NullSize(rest: Blob)
    ensures DecU32(NULL_FORM + rest) == Ok(0xFFFF_FFFF, rest)
  {
    var f := NULL_FORM;
    Glue(f, rest, 4);
    assert f[..3] == [0xFF, 0xFF, 0xFF] && f[..3][..2] == [0xFF, 0xFF] && f[..3][..2][..1] == [0xFF];
    assert FromBE([0xFF]) == 0xFF && FromBE(f[..3][..2]) == 0xFFFF && FromBE(f[..3]) == 0xFF_FFFF;
  }

  // The byte strings that a value may be written as.

  predicate StringForm(s: QString, bs: Blob) {
    (StringFits(s) && bs == EncString(s)) || (s == [] && bs == NULL_FORM)
  }

  predicate BlobForm(b: Blob, bs: Blob) {
    (BlobFits(b) && bs == EncBlob(b)) || (b == [] && bs == NULL_FORM)
  }

  ghost predicate PromptForm(p: Prompt, bs: Blob) {
    exists m, r | StringForm(p.message, m) && BlobForm(p.response, r) ::
      bs == EncI32(p.kind) + (m + (EncBool(p.hidden) + r))
  }

  function Concat(forms: seq<Blob>): Blob {
    if forms == [] then [] else Concat(forms[..|forms| - 1]) + forms[|forms| - 1]
  }

  ghost predicate Forms(ps: seq<Prompt>, forms: seq<Blob>) {
    |forms| == |ps| && forall i | 0 <= i < |ps| :: PromptForm(ps[i], forms[i])
  }

  ghost predicate RequestForm(r: Request, bs: Blob) {
    |r.prompts| < 0x8000_0000
    && exists forms | Forms(r.prompts, forms) :: bs == EncI32(|r.prompts|) + Concat(forms)
  }

  /** The frames of the helper and of the daemon, with any null values in them. */
  ghost predicate HelperForm(f: HelperFrame, bs: Blob) {
    match f
    case HelloFrame(id) => bs == EncI64(id)
    case ErrorFrame(m, k) => exists s | StringForm(m, s) :: bs == s + EncI32(ErrorCode(k))
    case InfoFrame(m, k) => exists s | StringForm(m, s) :: bs == s + EncI32(InfoCode(k))
    case AskFrame(r) => RequestForm(r, bs)
    case AuthenticatedFrame(u) => StringForm(u, bs)
    case SessionStatusFrame(ok) => bs == EncBool(ok)
    case DisplayServerFrame(n) => StringForm(n, bs)
  }

  lemma StringReads(s: QString, bs: Blob, rest: Blob)
    requires StringForm(s, bs)
    ensures DecString(bs + rest) == Ok(s, rest)
  {
    if bs == NULL_FORM && s == [] { NullSize(rest); } else { StringRoundTrip(s, rest); }
  }

  lemma BlobReads(b: Blob, bs: Blob, rest: Blob)
    requires BlobForm(b, bs)
    ensures DecBlob(bs + rest) == Ok(b, rest)
  {
    if bs == NULL_FORM && b == [] { NullSize(rest); } else { BlobRoundTrip(b, rest); }
  }

  lemma PromptReads(p: Prompt, bs: Blob, rest: Blob)
    requires PromptForm(p, bs)
    ensures DecPrompt(bs + rest) == Ok(p, rest)
  {
    var m, r :| StringForm(p.message, m) && BlobForm(p.response, r)
      && bs == EncI32(p.kind) + (m + (EncBool(p.hidden) + r));
    PromptParts(p, m, r, rest);
  }

  lemma PromptParts(p: Prompt, m: Blob, r: Blob, rest: Blob)
    requires StringForm(p.message, m) && BlobForm(p.response, r)
    ensures DecPrompt(EncI32(p.kind) + (m + (EncBool(p.hidden) + r)) + rest) == Ok(p, rest)
  {
    var r3 := r + rest;
    var r2 := EncBool(p.hidden) + r3;
    Assoc(EncBool(p.hidden), r, rest);
    Assoc(m, EncBool(p.hidden) + r, rest);
    Assoc(EncI32(p.kind), m + (EncBool(p.hidden) + r), rest);
    I32RoundTrip(p.kind, m + r2);
    StringReads(p.message, m, r2);
    BoolRoundTrip(p.hidden, r3);
    BlobReads(p.response, r, rest);
  }

  /** Elements that are read one by one are read as a list. */
  lemma {:induction false} ListReads<T>(dec: Blob -> Read<T>, xs: seq<T>, forms: seq<Blob>, rest: Blob)
    requires |forms| == |xs|
    requires forall i, tail | 0 <= i < |xs| :: dec(forms[i] + tail) == Ok(xs[i], tail)
    ensures DecList(dec, |xs|, Concat(forms) + rest) == Ok(xs, rest)
  {
    if xs == [] {
      assert Concat(forms) + rest == rest;
    } else {
      var n := |xs| - 1;
      Assoc(Concat(forms[..n]), forms[n], rest);
      ListReads(dec, xs[..n], forms[..n], forms[n] + rest);
      assert dec(forms[n] + rest) == Ok(xs[n], rest);
      assert xs[..n] + [xs[n]] == xs;
    }
  }

  /** A request reads as itself whichever of its texts and responses were written as null. */
  lemma RequestReads(r: Request, bs: Blob, rest: Blob)
    requires RequestForm(r, bs)
    ensures DecRequest(bs + rest) == Ok(r, rest)
  {
    var forms :| Forms(r.prompts, forms) && bs == EncI32(|r.prompts|) + Concat(forms);
    Assoc(EncI32(|r.prompts|), Concat(forms), rest);
    I32RoundTrip(|r.prompts|, Concat(forms) + rest);
    forall i, tail | 0 <= i < |forms| ensures DecPrompt(forms[i] + tail) == Ok(r.prompts[i], tail) {
      PromptReads(r.prompts[i], forms[i], tail);
    }
    ListReads(DecPrompt, r.prompts, forms, rest);
  }

  lemma CodedReads(m: QString, s: Blob, code: int32, last: int, rest: Blob)
    requires StringForm(m, s) && 0 <= code < last
    ensures DecCoded(last, s + EncI32(code) + rest) == Ok((m, code), rest)
  {
    Assoc(s, EncI32(code), rest);
    StringReads(m, s, EncI32(code) + rest);
    I32RoundTrip(code, rest);
  }

  lemma ErrorReads(m: QString, k: ErrorKind, bs: Blob, rest: Blob)
    requires HelperForm(ErrorFrame(m, k), bs)
    ensures DecHelperBody(Error, bs + rest) == Ok(ErrorFrame(m, k), rest)
  {
    var s :| StringForm(m, s) && bs == s + EncI32(ErrorCode(k));
    CodedReads(m, s, ErrorCode(k), 4, rest);
  }

  lemma InfoReads(m: QString, k: InfoKind, bs: Blob, rest: Blob)
    requires HelperForm(InfoFrame(m, k), bs)
    ensures DecHelperBody(Info, bs + rest) == Ok(InfoFrame(m, k), rest)
  {
    var s :| StringForm(m, s) && bs == s + EncI32(InfoCode(k));
    CodedReads(m, s, InfoCode(k), 3, rest);
  }

  lemma AskReads(r: Request, bs: Blob, rest: Blob)
    requires HelperForm(AskFrame(r), bs)
    ensures DecHelperBody(Ask, bs + rest) == Ok(AskFrame(r), rest)
  {
    RequestReads(r, bs, rest);
  }

  lemma BodyReads(f: HelperFrame, bs: Blob, rest: Blob)
    requires HelperForm(f, bs)
    ensures DecHelperBody(HelperCode(f), bs + rest) == Ok(f, rest)
  {
    match f {
      case HelloFrame(id) => I64RoundTrip(id, rest);
      case ErrorFrame(m, k) => ErrorReads(m, k, bs, rest);
      case InfoFrame(m, k) => InfoReads(m, k, bs, rest);
      case AskFrame(r) => AskReads(r, bs, rest);
      case AuthenticatedFrame(u) => StringReads(u, bs, rest);
      case SessionStatusFrame(ok) => BoolRoundTrip(ok, rest);
      case DisplayServerFrame(n) => StringReads(n, bs, rest);
    }
  }

  /** Every frame of the helper reads as itself whichever of its values were written as null. */
  lemma HelperReads(f: HelperFrame, bs: Blob, rest: Blob)
    requires HelperForm(f, bs)
    ensures DecHelper(EncMsg(HelperCode(f)) + bs + rest) == Ok(f, rest)
  {
    Assoc(EncMsg(HelperCode(f)), bs, rest);
    MsgRoundTrip(HelperCode(f), 0, bs + rest);
    BodyReads(f, bs, rest);
  }

  /** The answer to a request, likewise. */
  lemma AnswerReads(r: Request, bs: Blob, rest: Blob)
    requires RequestForm(r, bs)
    ensures DecDaemon(EncMsg(Ask) + bs + rest) == Ok(AnswerFrame(r), rest)
  {
    Assoc(EncMsg(Ask), bs, rest);
    MsgRoundTrip(Ask, 0, bs + rest);
    RequestReads(r, bs, rest);
  }

  // ---------------------------------------------------------- the bytes themselves

  lemma SmallCode(n: nat)
    requires n < 256
    ensures EncI32(n) == [0, 0, 0, n] && EncU32(n) == [0, 0, 0, n]
  {
    Pow256Values();
    assert ToBE(0, 0) == [] && ToBE(0, 1) == [0] && ToBE(0, 2) == [0, 0] && ToBE(0, 3) == [0, 0, 0];
  }

  /** A frame starts with the length of its payload, lowest byte first. */
  lemma HeaderBytes(p: Blob, i: nat)
    requires |p| < 0x8000_0000_0000_0000 && i < 8
    ensures SafeDataStream.Frame(p)[i] == |p| / Pow256(i) % 256 && SafeDataStream.Frame(p)[8..] == p
  {
    SafeDataStream.HeaderRange();
    DigitLE(|p|, 8, i);
  }

  /** The code that starts each payload, in the order of the enumeration. */
  lemma MessageCodes(f: HelperFrame)
    ensures EncMsg(HelperCode(f)) ==
      match f
      case HelloFrame(_) => [0, 0, 0, 1]
      case ErrorFrame(_, _) => [0, 0, 0, 2]
      case InfoFrame(_, _) => [0, 0, 0, 3]
      case AskFrame(_) => [0, 0, 0, 4]
      case AuthenticatedFrame(_) => [0, 0, 0, 5]
      case SessionStatusFrame(_) => [0, 0, 0, 6]
      case DisplayServerFrame(_) => [0, 0, 0, 7]
  {
    SmallCode(MsgCode(HelperCode(f)));
  }

  /** A reply carries the code of what it replies to. */
  lemma ReplyCodes(f: DaemonFrame)
    ensures EncMsg(DaemonCode(f)) ==
      match f
      case AnswerFrame(_) => [0, 0, 0, 4]
      case EnvironmentFrame(_) => [0, 0, 0, 5]
      case SessionStatusAck => [0, 0, 0, 6]
      case DisplayServerAck => [0, 0, 0, 7]
  {
    SmallCode(MsgCode(DaemonCode(f)));
  }

  /** The kinds of errors and of information; a number that is none of them cannot be read. */
  lemma KindCodes(m: QString, e: ErrorKind, i: InfoKind, code: int32, rest: Blob)
    requires StringFits(m)
    ensures EncI32(ErrorCode(e)) ==
      match e
      case ErrorNone => [0, 0, 0, 0]
      case ErrorUnknown => [0, 0, 0, 1]
      case ErrorAuthentication => [0, 0, 0, 2]
      case ErrorInternal => [0, 0, 0, 3]
    ensures EncI32(InfoCode(i)) ==
      match i
      case InfoNone => [0, 0, 0, 0]
      case InfoUnknown => [0, 0, 0, 1]
      case InfoPassChangeRequired => [0, 0, 0, 2]
    ensures DecHelperBody(Error, EncString(m) + EncI32(code) + rest).Corrupt? <==> !(0 <= code <= 3)
    ensures DecHelperBody(Info, EncString(m) + EncI32(code) + rest).Corrupt? <==> !(0 <= code <= 2)
  {
    SmallCode(ErrorCode(e));
    SmallCode(InfoCode(i));
    Assoc(EncString(m), EncI32(code), rest);
    StringRoundTrip(m, EncI32(code) + rest);
    I32RoundTrip(code, rest);
  }

  /** A message between greeter and daemon starts with its number. */
  lemma GreeterCodes(g: GreeterSocket.GreeterMessage, d: DaemonMessage)
    requires GreeterSocket.GreeterSendable(g) && GreeterSocket.DaemonSendable(d)
    ensures [0, 0, 0, if g.Connect? then 0 else 1] <= GreeterSocket.EncGreeter(g)
    ensures [0, 0, 0, if d.LoginSucceeded? then 0 else if d.LoginFailed? then 1 else 2] <= GreeterSocket.EncDaemon(d)
  {
    SmallCode(0);
    SmallCode(1);
    SmallCode(2);
  }

  /** The report of a refused login, byte by byte: the code and a null name. */
  lemma RefusalOnTheWire(rest: Blob)
    ensures DecHelper([0, 0, 0, 5] + [0xFF, 0xFF, 0xFF, 0xFF] + rest) == Ok(AuthenticatedFrame([]), rest)
  {
    SmallCode(5);
    HelperReads(AuthenticatedFrame([]), NULL_FORM, rest);
  }

  /** A first request for a pass phrase with the text "P", byte by byte: its response has never been set. */
  lemma AskOnTheWire(rest: Blob)
    ensures var prompt := [0, 0, 0, 0x81] + ([0, 0, 0, 2, 0, 0x50] + ([1] + [0xFF, 0xFF, 0xFF, 0xFF]));
      DecHelper([0, 0, 0, 4] + ([0, 0, 0, 1] + prompt) + rest)
        == Ok(AskFrame(Request([Prompt(LOGIN_PASSWORD, [0x50], true, [])])), rest)
  {
    var p := Prompt(LOGIN_PASSWORD, [0x50], true, []);
    var body := [0, 0, 0, 0x81] + ([0, 0, 0, 2, 0, 0x50] + ([1] + NULL_FORM));
    SmallCode(4);
    SmallCode(1);
    SmallCode(0x81);
    LetterP();
    assert StringForm(p.message, [0, 0, 0, 2, 0, 0x50]) && BlobForm(p.response, NULL_FORM);
    assert PromptForm(p, body);
    OneForm(p, body);
    HelperReads(AskFrame(Request([p])), EncI32(1) + body, rest);
  }

  lemma OneForm(p: Prompt, bs: Blob)
    requires PromptForm(p, bs)
    ensures RequestForm(Request([p]), EncI32(1) + bs)
  {
    assert Concat([bs][..0]) == [];
    assert Concat([bs]) == bs;
    assert Forms([p], [bs]);
  }

  lemma LetterP()
    ensures EncString([0x50]) == [0, 0, 0, 2, 0, 0x50]
  {
    SmallCode(2);
    Pow256Values();
    assert ToBE(0, 0) == [] && ToBE(0, 1) == [0] && ToBE(0x50, 2) == [0, 0x50];
    assert EncUnits([0x50][1..]) == [];
    assert EncUnits([0x50]) == [0, 0x50];
  }
}
