/** Prompts, requests and message codes, and their QDataStream encodings. */
module AuthMessages {
  import opened Bytes

  /** QString: UTF-16 code units. The null and the empty string compare equal in Qt and are one value here. */
  type QChar = c: int | 0 <= c < 0x10000
  type QString = seq<QChar>

  function Text(s: string): QString {
    seq(|s|, i requires 0 <= i < |s| => s[i] as int % 0x10000)
  }

  type int32 = i: int | -0x8000_0000 <= i < 0x8000_0000
  type int64 = i: int | -0x8000_0000_0000_0000 <= i < 0x8000_0000_0000_0000

  /** AuthPrompt::Type is a C++ enum read with a cast, so any int32 can occur. */
  type PromptType = int32
  const NONE: PromptType := 0x00
  const UNKNOWN: PromptType := 0x01
  const CHANGE_CURRENT: PromptType := 0x10
  const CHANGE_NEW: PromptType := 0x11
  const CHANGE_REPEAT: PromptType := 0x12
  const LOGIN_USER: PromptType := 0x80
  const LOGIN_PASSWORD: PromptType := 0x81

  datatype Prompt = Prompt(kind: PromptType, message: QString, hidden: bool, response: Blob) {
    predicate Valid() {
      !(kind == NONE && response == [] && message == [])
    }
  }

  const INVALID_PROMPT := Prompt(NONE, [], false, [])

  datatype Request = Request(prompts: seq<Prompt>) {
    predicate Valid() { prompts != [] }
  }

  datatype Msg = Hello | Error | Info | Ask | Authenticated | SessionStatus | DisplayServerStarted

  type Environment = map<QString, QString>

  /** What the daemon tells a greeter. A greeter may read a code that no daemon writes. */
  datatype DaemonMessage =
    | LoginSucceeded
    | LoginFailed
    | InformationMessage(text: QString)
    | UnknownToGreeter(code: nat)

  /** The greeter's own account. */
  const PLASMALOGIN: QString := Text("plasmalogin")

  // ---------------------------------------------------------------- encoding

  const NULL_SIZE := 0xFFFF_FFFF

  lemma Pow256Values()
    ensures Pow256(2) == 0x1_0000 && Pow256(4) == 0x1_0000_0000 && Pow256(8) == 0x1_0000_0000_0000_0000
  {
    assert Pow256(1) == 256 && Pow256(2) == 0x1_0000 && Pow256(3) == 0x100_0000;
    assert Pow256(5) == 0x100_0000_0000 && Pow256(6) == 0x1_0000_0000_0000 && Pow256(7) == 0x100_0000_0000_0000;
  }

  function EncU32(n: nat): (bs: Blob)
    requires n <= NULL_SIZE
    ensures |bs| == 4
  {
    Pow256Values(); ToBE(n, 4)
  }

  function EncI32(i: int32): (bs: Blob)
    ensures |bs| == 4
  {
    EncU32(if i < 0 then i + 0x1_0000_0000 else i)
  }

  function EncI64(i: int64): (bs: Blob)
    ensures |bs| == 8
  {
    Pow256Values(); ToBE(if i < 0 then i + 0x1_0000_0000_0000_0000 else i, 8)
  }

  function EncBool(b: bool): (bs: Blob) { if b then [1] else [0] }

  predicate StringFits(s: QString) { 2 * |s| < 0xFFFF_FFFE }
  predicate BlobFits(b: Blob) { |b| < 0xFFFF_FFFE }

  function EncUnits(s: QString): (bs: Blob)
    ensures |bs| == 2 * |s|
  {
    if s == [] then [] else Pow256Values(); ToBE(s[0], 2) + EncUnits(s[1..])
  }

  function EncString(s: QString): Blob
    requires StringFits(s)
  {
    EncU32(2 * |s|) + EncUnits(s)
  }

  function EncBlob(b: Blob): Blob
    requires BlobFits(b)
  {
    EncU32(|b|) + b
  }

  predicate PromptFits(p: Prompt) { StringFits(p.message) && BlobFits(p.response) }
  predicate RequestFits(r: Request) {
    |r.prompts| < 0x8000_0000 && forall i | 0 <= i < |r.prompts| :: PromptFits(r.prompts[i])
  }

  function EncPrompt(p: Prompt): Blob
    requires PromptFits(p)
  {
    EncI32(p.kind) + EncString(p.message) + EncBool(p.hidden) + EncBlob(p.response)
  }

  function EncList<T>(enc: T --> Blob, xs: seq<T>): Blob
    requires forall i | 0 <= i < |xs| :: enc.requires(xs[i])
  {
    if xs == [] then [] else EncList(enc, xs[..|xs| - 1]) + enc(xs[|xs| - 1])
  }

  function EncRequest(r: Request): Blob
    requires RequestFits(r)
  {
    EncI32(|r.prompts|) + EncList(EncPrompt, r.prompts)
  }

  predicate StringsFit(l: seq<QString>) {
    |l| < 0xFFFF_FFFE && forall i | 0 <= i < |l| :: StringFits(l[i])
  }

  function EncStringList(l: seq<QString>): Blob
    requires StringsFit(l)
  {
    EncU32(|l|) + EncList(EncString, l)
  }

  function MsgCode(m: Msg): int32 {
    match m
    case Hello => 1 case Error => 2 case Info => 3 case Ask => 4
    case Authenticated => 5 case SessionStatus => 6 case DisplayServerStarted => 7
  }

  function EncMsg(m: Msg): Blob { EncI32(MsgCode(m)) }

  // ---------------------------------------------------------------- decoding

  /** What a read leaves behind: the value and the unread bytes, or the stream's error status. */
  datatype Read<+T> = Ok(value: T, rest: Blob) | PastEnd | Corrupt {
    predicate IsFailure() { !Ok? }
    function PropagateFailure<U>(): Read<U>
      requires IsFailure()
    {
      if PastEnd? then PastEnd else Corrupt
    }
    function Extract(): (T, Blob)
      requires Ok?
    {
      (value, rest)
    }
  }

  function Take(n: nat, bs: Blob): Read<Blob> {
    if |bs| < n then PastEnd else Ok(bs[..n], bs[n..])
  }

  function DecU32(bs: Blob): (r: Read<nat>)
    ensures r.Ok? ==> r.value <= NULL_SIZE && |r.rest| < |bs|
  {
    Pow256Values();
    var (b, rest) :- Take(4, bs);
    Ok(FromBE(b), rest)
  }

  function DecI32(bs: Blob): (r: Read<int32>)
    ensures r.Ok? ==> |r.rest| < |bs|
  {
    var (n, rest) :- DecU32(bs);
    Ok(if n < 0x8000_0000 then n else n - 0x1_0000_0000, rest)
  }

  function DecI64(bs: Blob): Read<int64> {
    Pow256Values();
    var (b, rest) :- Take(8, bs);
    var n := FromBE(b);
    Ok(if n < 0x8000_0000_0000_0000 then n else n - 0x1_0000_0000_0000_0000, rest)
  }

  function DecBool(bs: Blob): Read<bool> {
    var (b, rest) :- Take(1, bs);
    Ok(b[0] != 0, rest)
  }

  function DecUnits(bs: Blob): QString
    requires |bs| % 2 == 0
  {
    if bs == [] then [] else Pow256Values(); [FromBE(bs[..2])] + DecUnits(bs[2..])
  }

  function DecString(bs: Blob): (r: Read<QString>)
    ensures r.Ok? ==> |r.rest| < |bs|
  {
    var (n, rest) :- DecU32(bs);
    if n == NULL_SIZE then Ok([], rest)
    else if n % 2 != 0 then Corrupt
    else
      var (units, rest) :- Take(n, rest);
      Ok(DecUnits(units), rest)
  }

  function DecBlob(bs: Blob): Read<Blob> {
    var (n, rest) :- DecU32(bs);
    if n == NULL_SIZE then Ok([], rest) else Take(n, rest)
  }

  function DecPrompt(bs: Blob): Read<Prompt> {
    var (kind, rest) :- DecI32(bs);
    var (message, rest) :- DecString(rest);
    var (hidden, rest) :- DecBool(rest);
    var (response, rest) :- DecBlob(rest);
    Ok(Prompt(kind, message, hidden, response), rest)
  }

  function DecList<T>(dec: Blob -> Read<T>, n: nat, bs: Blob): Read<seq<T>> {
    if n == 0 then Ok([], bs)
    else
      var (xs, rest) :- DecList(dec, n - 1, bs);
      var (x, rest) :- dec(rest);
      Ok(xs + [x], rest)
  }

  function DecRequest(bs: Blob): Read<Request> {
    var (n, rest) :- DecI32(bs);
    if n < 0 then Corrupt
    else
      var (ps, rest) :- DecList(DecPrompt, n, rest);
      Ok(Request(ps), rest)
  }

  function DecStringList(bs: Blob): Read<seq<QString>> {
    var (n, rest) :- DecU32(bs);
    DecList(DecString, n, rest)
  }

  function DecMsg(bs: Blob): Read<Msg> {
    var (i, rest) :- DecI32(bs);
    if i == 1 then Ok(Hello, rest)
    else if i == 2 then Ok(Error, rest)
    else if i == 3 then Ok(Info, rest)
    else if i == 4 then Ok(Ask, rest)
    else if i == 5 then Ok(Authenticated, rest)
    else if i == 6 then Ok(SessionStatus, rest)
    else if i == 7 then Ok(DisplayServerStarted, rest)
    else Corrupt
  }

  // -------------------------------------------------------------- round trips

  lemma Glue(a: Blob, b: Blob, n: nat)
    requires n == |a|
    ensures (a + b)[..n] == a && (a + b)[n..] == b
  {
  }

  lemma Assoc(a: Blob, b: Blob, c: Blob)
    ensures a + b + c == a + (b + c)
  {
  }

  lemma U32RoundTrip(n: nat, rest: Blob)
    requires n <= NULL_SIZE
    ensures DecU32(EncU32(n) + rest) == Ok(n, rest)
  {
    Pow256Values();
    FromToBE(n, 4);
    Glue(EncU32(n), rest, 4);
  }

  lemma I32RoundTrip(i: int32, rest: Blob)
    ensures DecI32(EncI32(i) + rest) == Ok(i, rest)
  {
    U32RoundTrip(if i < 0 then i + 0x1_0000_0000 else i, rest);
  }

  lemma I64RoundTrip(i: int64, rest: Blob)
    ensures DecI64(EncI64(i) + rest) == Ok(i, rest)
  {
    Pow256Values();
    FromToBE(if i < 0 then i + 0x1_0000_0000_0000_0000 else i, 8);
    Glue(EncI64(i), rest, 8);
  }

  lemma {:induction false} UnitsRoundTrip(s: QString)
    ensures DecUnits(EncUnits(s)) == s
  {
    if s != [] {
      Pow256Values();
      FromToBE(s[0], 2);
      Glue(ToBE(s[0], 2), EncUnits(s[1..]), 2);
      UnitsRoundTrip(s[1..]);
    }
  }

  lemma StringRoundTrip(s: QString, rest: Blob)
    requires StringFits(s)
    ensures DecString(EncString(s) + rest) == Ok(s, rest)
  {
    assert EncString(s) + rest == EncU32(2 * |s|) + (EncUnits(s) + rest);
    U32RoundTrip(2 * |s|, EncUnits(s) + rest);
    Glue(EncUnits(s), rest, 2 * |s|);
    UnitsRoundTrip(s);
  }

  lemma BlobRoundTrip(b: Blob, rest: Blob)
    requires BlobFits(b)
    ensures DecBlob(EncBlob(b) + rest) == Ok(b, rest)
  {
    assert EncBlob(b) + rest == EncU32(|b|) + (b + rest);
    U32RoundTrip(|b|, b + rest);
    Glue(b, rest, |b|);
  }

  lemma BoolRoundTrip(b: bool, rest: Blob)
    ensures DecBool(EncBool(b) + rest) == Ok(b, rest)
  {
    Glue(EncBool(b), rest, 1);
  }

  lemma PromptRoundTrip(p: Prompt, rest: Blob)
    requires PromptFits(p)
    ensures DecPrompt(EncPrompt(p) + rest) == Ok(p, rest)
  {
    var r3 := EncBlob(p.response) + rest;
    var r2 := EncBool(p.hidden) + r3;
    var r1 := EncString(p.message) + r2;
    assert EncPrompt(p) + rest == EncI32(p.kind) + r1;
    I32RoundTrip(p.kind, r1);
    StringRoundTrip(p.message, r2);
    BoolRoundTrip(p.hidden, r3);
    BlobRoundTrip(p.response, rest);
  }

  lemma {:induction false} ListRoundTrip<T(!new)>(enc: T --> Blob, dec: Blob -> Read<T>, xs: seq<T>, rest: Blob)
    requires forall i | 0 <= i < |xs| :: enc.requires(xs[i])
    requires forall x, tail | enc.requires(x) :: dec(enc(x) + tail) == Ok(x, tail)
    ensures DecList(dec, |xs|, EncList(enc, xs) + rest) == Ok(xs, rest)
  {
    if xs == [] {
      assert EncList(enc, xs) + rest == rest;
    } else {
      var front, last := xs[..|xs| - 1], xs[|xs| - 1];
      assert EncList(enc, xs) + rest == EncList(enc, front) + (enc(last) + rest);
      ListRoundTrip(enc, dec, front, enc(last) + rest);
      assert dec(enc(last) + rest) == Ok(last, rest);
      assert front + [last] == xs;
    }
  }

  lemma RequestRoundTrip(r: Request, rest: Blob)
    requires RequestFits(r)
    ensures DecRequest(EncRequest(r) + rest) == Ok(r, rest)
  {
    var body := EncList(EncPrompt, r.prompts);
    Assoc(EncI32(|r.prompts|), body, rest);
    I32RoundTrip(|r.prompts|, body + rest);
    forall p, tail | EncPrompt.requires(p) ensures DecPrompt(EncPrompt(p) + tail) == Ok(p, tail) {
      PromptRoundTrip(p, tail);
    }
    ListRoundTrip(EncPrompt, DecPrompt, r.prompts, rest);
  }

  lemma StringListRoundTrip(l: seq<QString>, rest: Blob)
    requires StringsFit(l)
    ensures DecStringList(EncStringList(l) + rest) == Ok(l, rest)
  {
    var body := EncList(EncString, l);
    Assoc(EncU32(|l|), body, rest);
    U32RoundTrip(|l|, body + rest);
    forall x, tail | EncString.requires(x) ensures DecString(EncString(x) + tail) == Ok(x, tail) {
      StringRoundTrip(x, tail);
    }
    ListRoundTrip(EncString, DecString, l, rest);
  }

  /** Every code decodes to its own message, and every other int32 is reported as corrupt. */
  lemma MsgRoundTrip(m: Msg, i: int32, rest: Blob)
    ensures DecMsg(EncMsg(m) + rest) == Ok(m, rest)
    ensures !(1 <= i <= 7) ==> DecMsg(EncI32(i) + rest) == Corrupt
  {
    I32RoundTrip(MsgCode(m), rest);
    I32RoundTrip(i, rest);
  }

  /** The element loop of the writing operators. */
  method WriteList<T>(enc: T --> Blob, xs: seq<T>) returns (bs: Blob)
    requires forall i | 0 <= i < |xs| :: enc.requires(xs[i])
    ensures bs == EncList(enc, xs)
  {
    bs := [];
    for i := 0 to |xs|
      invariant bs == EncList(enc, xs[..i])
    {
      assert xs[..i + 1][..i] == xs[..i];
      bs := bs + enc(xs[i]);
    }
    assert xs[..|xs|] == xs;
  }

  /** The stream operator that writes a request. */
  method WriteRequest(r: Request) returns (bs: Blob)
    requires RequestFits(r)
    ensures bs == EncRequest(r)
  {
    var elements := WriteList(EncPrompt, r.prompts);
    bs := EncI32(|r.prompts|) + elements;
  }

  /** The element loop shared by the reading operators. */
  method ReadList<T>(dec: Blob -> Read<T>, n: int, bs: Blob) returns (r: Read<seq<T>>)
    ensures r == if n < 0 then Ok([], bs) else DecList(dec, n, bs)
  {
    var xs: seq<T>, rest := [], bs;
    var i := 0;
    while i < n
      invariant 0 <= i && (0 <= n ==> i <= n) && (n < 0 ==> i == 0)
      invariant DecList(dec, i, bs) == Ok(xs, rest)
    {
      var x := dec(rest);
      if x.IsFailure() {
        ListStops(dec, i + 1, n, bs);
        return x.PropagateFailure();
      }
      xs, rest := xs + [x.value], x.rest;
      i := i + 1;
    }
    return Ok(xs, rest);
  }

  /** The stream operator that reads a request: a negative length runs no iteration and fails the length test. */
  method ReadRequest(bs: Blob) returns (r: Read<Request>)
    ensures r == DecRequest(bs)
  {
    var n := DecI32(bs);
    if n.IsFailure() {
      return n.PropagateFailure();
    }
    var l := ReadList(DecPrompt, n.value, n.rest);
    if l.IsFailure() {
      return l.PropagateFailure();
    }
    ListLength(DecPrompt, n.value, n.rest);
    if |l.value| != n.value {
      return Corrupt;
    }
    return Ok(Request(l.value), l.rest);
  }

  lemma {:induction false} ListLength<T>(dec: Blob -> Read<T>, n: int, bs: Blob)
    ensures n >= 0 && DecList(dec, n, bs).Ok? ==> |DecList(dec, n, bs).value| == n
    decreases n
  {
    if n > 0 {
      ListLength(dec, n - 1, bs);
    }
  }

  lemma {:induction false} ListStops<T>(dec: Blob -> Read<T>, i: nat, n: nat, bs: Blob)
    requires i <= n && DecList(dec, i, bs).IsFailure()
    ensures DecList(dec, n, bs) == DecList(dec, i, bs)
  {
    if i < n {
      ListStops(dec, i, n - 1, bs);
    }
  }

  // -------------------------------------------------------------- environments

  const EQUALS: QChar := 0x3D

  function Entry(k: QString, v: QString): QString { k + [EQUALS] + v }

  /** QProcessEnvironment::toStringList, for one order of the variables. */
  function EnvList(env: Environment, order: seq<QString>): (l: seq<QString>)
    requires forall k | k in order :: k in env
    ensures |l| == |order|
  {
    if order == [] then []
    else
      var k := order[|order| - 1];
      EnvList(env, order[..|order| - 1]) + [Entry(k, env[k])]
  }

  /** Position of the first '=', or -1. */
  function IndexOfEquals(s: QString): (pos: int)
    ensures -1 <= pos < |s|
    ensures pos >= 0 ==> s[pos] == EQUALS && EQUALS !in s[..pos]
    ensures pos == -1 ==> EQUALS !in s
  {
    if s == [] then -1
    else if s[0] == EQUALS then 0
    else
      var p := IndexOfEquals(s[1..]);
      if p == -1 then -1
      else assert s[..p + 1] == [s[0]] + s[1..][..p]; p + 1
  }

  /** left(pos) and mid(pos + 1); Qt's left(-1) and mid(0) are both the whole string. */
  function InsertEntry(env: Environment, s: QString): Environment {
    var pos := IndexOfEquals(s);
    if pos == -1 then env[s := s] else env[s[..pos] := s[pos + 1..]]
  }

  function EnvOf(l: seq<QString>): Environment {
    if l == [] then map[] else InsertEntry(EnvOf(l[..|l| - 1]), l[|l| - 1])
  }

  method ReadEnvironment(l: seq<QString>) returns (env: Environment)
    ensures env == EnvOf(l)
  {
    env := map[];
    for i := 0 to |l|
      invariant env == EnvOf(l[..i])
    {
      assert l[..i + 1][..i] == l[..i];
      env := InsertEntry(env, l[i]);
    }
    assert l[..|l|] == l;
  }

  ghost predicate Enumerates(order: seq<QString>, env: Environment) {
    && (forall k :: k in order <==> k in env)
    && forall i, j | 0 <= i < j < |order| :: order[i] != order[j]
  }

  lemma SplitEntry(k: QString, v: QString)
    requires EQUALS !in k
    ensures IndexOfEquals(Entry(k, v)) == |k|
    ensures Entry(k, v)[..|k|] == k && Entry(k, v)[|k| + 1..] == v
  {
    assert Entry(k, v)[|k|] == EQUALS;
    assert forall i | 0 <= i < |k| :: Entry(k, v)[i] == k[i];
  }

  lemma InsertOwnEntry(env: Environment, k: QString, v: QString)
    requires EQUALS !in k
    ensures InsertEntry(env, Entry(k, v)) == env[k := v]
  {
    SplitEntry(k, v);
  }

  lemma {:induction false} EnvBuilds(env: Environment, order: seq<QString>)
    requires forall k | k in order :: k in env && EQUALS !in k
    ensures EnvOf(EnvList(env, order)) == map k | k in order :: env[k]
  {
    if order != [] {
      var front, k := order[..|order| - 1], order[|order| - 1];
      assert forall x :: x in order <==> x in front || x == k;
      EnvBuilds(env, front);
      InsertOwnEntry(map x | x in front :: env[x], k, env[k]);
      EnvMore(EnvList(env, front), Entry(k, env[k]));
      assert (map x | x in front :: env[x])[k := env[k]] == map x | x in order :: env[x];
    }
  }

  lemma EnvMore(l: seq<QString>, e: QString)
    ensures EnvOf(l + [e]) == InsertEntry(EnvOf(l), e)
  {
    assert (l + [e])[..|l|] == l;
  }

  lemma {:induction false} DecodedKeysHaveNoEquals(env: Environment, order: seq<QString>, key: QString)
    requires forall k | k in order :: k in env
    requires key in EnvOf(EnvList(env, order))
    ensures EQUALS !in key
  {
    if order != [] {
      var front, k := order[..|order| - 1], order[|order| - 1];
      var e := Entry(k, env[k]);
      assert e[|k|] == EQUALS;
      assert EnvList(env, order)[..|front|] == EnvList(env, front);
      if key in EnvOf(EnvList(env, front)) {
        DecodedKeysHaveNoEquals(env, front, key);
      }
    }
  }

  /** Of several entries for a variable the last one counts, and an entry without '=' is a variable named and
      valued by itself. */
  lemma LastEntryCounts(l: seq<QString>, k: QString, v: QString, other: QString)
    requires EQUALS !in k
    ensures var env := EnvOf(l + [Entry(k, v)]);
      && k in env && env[k] == v
      && (other != k ==> (other in env <==> other in EnvOf(l)) && (other in env ==> env[other] == EnvOf(l)[other]))
    ensures var env := EnvOf(l + [k]); k in env && env[k] == k
  {
    EnvMore(l, Entry(k, v));
    EnvMore(l, k);
    InsertOwnEntry(EnvOf(l), k, v);
  }

  /** An environment survives its string-list form exactly when no variable name contains '='. */
  lemma EnvironmentRoundTrip(env: Environment, order: seq<QString>)
    requires Enumerates(order, env)
    ensures EnvOf(EnvList(env, order)) == env <==> forall k | k in env :: EQUALS !in k
  {
    if forall k | k in env :: EQUALS !in k {
      EnvBuilds(env, order);
    } else if EnvOf(EnvList(env, order)) == env {
      var k :| k in env && EQUALS in k;
      DecodedKeysHaveNoEquals(env, order, k);
    }
  }

  /** The same with the bytes in between, whatever follows them. */
  lemma EnvironmentOverTheWire(env: Environment, order: seq<QString>, rest: Blob)
    requires Enumerates(order, env) && StringsFit(EnvList(env, order))
    ensures var r := DecStringList(EncStringList(EnvList(env, order)) + rest);
      && r.Ok? && r.rest == rest
      && (EnvOf(r.value) == env <==> forall k | k in env :: EQUALS !in k)
  {
    StringListRoundTrip(EnvList(env, order), rest);
    EnvironmentRoundTrip(env, order);
  }
}
