/** Length-prefixed frames over a byte stream that writes and reads in pieces. */
module SafeDataStream {
  import opened Bytes

  const HEADER := 8
  const MAX_LENGTH := 0x8000_0000_0000_0000

  lemma HeaderRange()
    ensures Pow256(7) == 0x100_0000_0000_0000 && Pow256(8) == 0x1_0000_0000_0000_0000
  {
    assert Pow256(1) == 256 && Pow256(2) == 0x1_0000 && Pow256(3) == 0x100_0000 && Pow256(4) == 0x1_0000_0000;
    assert Pow256(5) == 0x100_0000_0000 && Pow256(6) == 0x1_0000_0000_0000;
  }

  function HeaderOf(n: nat): (h: Blob)
    requires n < MAX_LENGTH
    ensures |h| == HEADER
  {
    HeaderRange(); ToLE(n, HEADER)
  }

  /** The qint64 whose memory image is the given eight bytes. */
  function Int64(h: Blob): int
    requires |h| == HEADER
  {
    var n := FromLE(h);
    if n < MAX_LENGTH then n else n - 2 * MAX_LENGTH
  }

  function Frame(p: Blob): Blob
    requires |p| < MAX_LENGTH
  {
    HeaderOf(|p|) + p
  }

  /** A frame that breaks off after i bytes of its payload. */
  function FrameUpTo(p: Blob, i: nat): Blob
    requires |p| < MAX_LENGTH && i <= |p|
  {
    HeaderOf(|p|) + p[..i]
  }

  predicate Sendable(ps: seq<Blob>) { forall i | 0 <= i < |ps| :: |ps[i]| < MAX_LENGTH }

  function FrameAll(ps: seq<Blob>): Blob
    requires Sendable(ps)
  {
    if ps == [] then [] else Frame(ps[0]) + FrameAll(ps[1..])
  }

  lemma HeaderRoundTrip(n: nat)
    requires n < MAX_LENGTH
    ensures Int64(HeaderOf(n)) == n
  {
    HeaderRange();
    FromToLE(n, HEADER);
  }

  /** The length variable starts as -1, so a header that arrives short leaves its sign byte set. */
  lemma ShortHeaderIsNegative(h: Blob)
    requires |h| == HEADER && h[7] == 255
    ensures Int64(h) < 0
  {
    HeaderRange();
    TopByteLE(h);
  }

  lemma FrameParts(p: Blob, tail: Blob)
    requires |p| < MAX_LENGTH
    ensures (Frame(p) + tail)[..HEADER] == HeaderOf(|p|)
    ensures (Frame(p) + tail)[HEADER..] == p + tail
  {
  }

  lemma FirstFrame(p: Blob, a: Blob, q: Blob, b: Blob)
    requires |p| < MAX_LENGTH && |q| < MAX_LENGTH && Frame(p) + a == Frame(q) + b
    ensures p == q && a == b
  {
    FrameParts(p, a);
    FrameParts(q, b);
    HeaderRoundTrip(|p|);
    HeaderRoundTrip(|q|);
    assert (p + a)[..|p|] == p && (q + b)[..|q|] == q;
    assert (p + a)[|p|..] == a && (q + b)[|q|..] == b;
  }

  lemma PrefixStep(ps: seq<Blob>, qs: seq<Blob>)
    requires ps != [] && qs != [] && ps[0] == qs[0] && ps[1..] <= qs[1..]
    ensures ps <= qs && qs[1..][|ps| - 1..] == qs[|ps|..]
  {
    assert forall i | 1 <= i < |ps| :: ps[i] == ps[1..][i - 1] == qs[1..][i - 1] == qs[i];
  }

  /** The head of a non-empty list of frames. */
  lemma Behead(ps: seq<Blob>, tail: Blob)
    requires Sendable(ps) && ps != []
    ensures FrameAll(ps) + tail == Frame(ps[0]) + (FrameAll(ps[1..]) + tail)
  {
    Regroup(Frame(ps[0]), FrameAll(ps[1..]), tail);
  }

  /** Framing loses no boundary: a byte string that starts with the frames of one list and also with those of a
      longer one shows that the longer list continues the shorter, and what is left over is its continuation. */
  lemma {:induction false} FramesAreUnambiguous(ps: seq<Blob>, qs: seq<Blob>, tail: Blob, rest: Blob)
    requires Sendable(ps) && Sendable(qs) && |ps| <= |qs|
    requires FrameAll(ps) + tail == FrameAll(qs) + rest
    ensures ps <= qs && tail == FrameAll(qs[|ps|..]) + rest
  {
    if ps == [] {
      assert qs[0..] == qs && FrameAll(ps) + tail == tail;
    } else {
      var a, b := FrameAll(ps[1..]) + tail, FrameAll(qs[1..]) + rest;
      assert Frame(ps[0]) + a == Frame(qs[0]) + b by {
        Behead(ps, tail);
        Behead(qs, rest);
      }
      FirstFrame(ps[0], a, qs[0], b);
      FramesAreUnambiguous(ps[1..], qs[1..], tail, rest);
      PrefixStep(ps, qs);
    }
  }

  lemma Advance(p: Blob, tail: Blob, i: nat, unread: Blob, piece: Blob, left: Blob)
    requires i + |piece| <= |p| && unread == (p + tail)[i..] && piece + left == unread
    ensures p[..i] + piece == p[..i + |piece|] && left == (p + tail)[i + |piece|..]
  {
    assert piece == unread[..|piece|] && left == unread[|piece|..];
  }

  lemma Regroup(a: Blob, b: Blob, c: Blob)
    ensures a + (b + c) == (a + b) + c
  {
  }

  // ---------------------------------------------------------------- arrival

  function Concat(chunks: seq<Blob>): Blob {
    if chunks == [] then [] else chunks[0] + Concat(chunks[1..])
  }

  predicate NoneEmpty(chunks: seq<Blob>) { forall i | 0 <= i < |chunks| :: chunks[i] != [] }

  /** The reading side of a socket: bytes that have arrived, and the chunks that the coming waits will deliver. */
  datatype Inbox = Inbox(buffered: Blob, arriving: seq<Blob>) {
    function Unread(): Blob { buffered + Concat(arriving) }

    /** Whether one chunk ends, and the next begins, after k > 0 unread bytes. */
    predicate Cut(k: int)
      decreases |arriving|
    {
      k > 0 && (k == |buffered| || (arriving != [] && Inbox(arriving[0], arriving[1..]).Cut(k - |buffered|)))
    }

    /** The eight bytes after the first o lie in one chunk. */
    predicate HeaderWhole(o: nat) {
      forall k | o < k < o + HEADER :: !Cut(k)
    }

    /** The bytes that can be had without waiting a second time. */
    function FirstSize(): nat {
      if buffered != [] then |buffered| else if arriving == [] then 0 else |arriving[0]|
    }

    /** What is left after n bytes are read. */
    function Skip(n: nat): Inbox
      decreases |arriving|
    {
      if n <= |buffered| then Inbox(buffered[n..], arriving)
      else if arriving == [] then NOTHING
      else Next().Skip(n - |buffered|)
    }

    function Next(): Inbox
      requires arriving != []
    {
      Inbox(arriving[0], arriving[1..])
    }
  }

  const NOTHING := Inbox([], [])

  /** How many payloads come before the first header that arrives in pieces. */
  function Intact(a: Inbox, o: nat, ps: seq<Blob>): (n: nat)
    ensures n <= |ps|
    decreases |ps|
  {
    if ps == [] || !a.HeaderWhole(o) then 0 else 1 + Intact(a, o + HEADER + |ps[0]|, ps[1..])
  }

  lemma FirstPiece(a: Inbox)
    requires a.FirstSize() > 0
    ensures a.HeaderWhole(0) <==> a.FirstSize() >= HEADER
    ensures a.Cut(a.FirstSize())
  {
    var first := if a.buffered == [] then a.Next() else a;
    assert first.Cut(|first.buffered|) && a.Cut(|first.buffered|);
    forall k | 0 < k < a.FirstSize() ensures !a.Cut(k) {
      assert !first.Cut(k);
    }
  }

  lemma {:induction false} SkipSkip(a: Inbox, n: nat, m: nat)
    ensures a.Skip(n).Skip(m) == a.Skip(n + m)
    decreases |a.arriving|
  {
    if n <= |a.buffered| {
      if n + m <= |a.buffered| { assert a.buffered[n..][m..] == a.buffered[n + m..]; }
    } else if a.arriving != [] {
      SkipSkip(a.Next(), n - |a.buffered|, m);
    }
  }

  lemma {:induction false} SkipCuts(a: Inbox, n: nat, k: int)
    requires k > 0
    ensures a.Skip(n).Cut(k) <==> a.Cut(n + k)
    ensures NoneEmpty(a.arriving) ==> NoneEmpty(a.Skip(n).arriving)
    decreases |a.arriving|
  {
    if n > |a.buffered| && a.arriving != [] {
      SkipCuts(a.Next(), n - |a.buffered|, k);
    }
  }

  lemma SkipHeaders(a: Inbox, n: nat, o: nat)
    ensures a.Skip(n).HeaderWhole(o) <==> a.HeaderWhole(n + o)
    ensures NoneEmpty(a.arriving) ==> NoneEmpty(a.Skip(n).arriving)
  {
    var b := a.Skip(n);
    SkipCuts(a, n, 1);
    forall k | k > 0 ensures b.Cut(k) <==> a.Cut(n + k) {
      SkipCuts(a, n, k);
    }
    if b.HeaderWhole(o) {
      forall k | n + o < k < n + o + HEADER ensures !a.Cut(k) {
        assert !b.Cut(k - n) && (b.Cut(k - n) <==> a.Cut(n + (k - n)));
      }
    }
  }

  lemma FrontLength(ps: seq<Blob>, i: nat)
    requires Sendable(ps) && 0 < i <= |ps|
    ensures |FrameAll(ps[..i])| == HEADER + |ps[0]| + |FrameAll(ps[1..][..i - 1])|
  {
    assert ps[..i][1..] == ps[1..][..i - 1];
  }

  /** No header of the list is cut, wherever it stands in the stream. */
  ghost predicate Uncut(a: Inbox, o: nat, ps: seq<Blob>)
    requires Sendable(ps)
  {
    forall i | 0 <= i < |ps| :: a.HeaderWhole(o + |FrameAll(ps[..i])|)
  }

  lemma UncutStep(a: Inbox, o: nat, ps: seq<Blob>)
    requires Sendable(ps) && ps != []
    ensures Uncut(a, o, ps) <==> a.HeaderWhole(o) && Uncut(a, o + HEADER + |ps[0]|, ps[1..])
  {
    var next := o + HEADER + |ps[0]|;
    assert ps[..0] == [];
    if Uncut(a, o, ps) {
      assert a.HeaderWhole(o + |FrameAll(ps[..0])|);
      forall j | 0 <= j < |ps| - 1 ensures a.HeaderWhole(next + |FrameAll(ps[1..][..j])|) {
        FrontLength(ps, j + 1);
        assert a.HeaderWhole(o + |FrameAll(ps[..j + 1])|);
      }
    } else if a.HeaderWhole(o) && Uncut(a, next, ps[1..]) {
      forall i | 0 <= i < |ps| ensures a.HeaderWhole(o + |FrameAll(ps[..i])|) {
        if i > 0 {
          FrontLength(ps, i);
          assert a.HeaderWhole(next + |FrameAll(ps[1..][..i - 1])|);
        }
      }
    }
  }

  /** All payloads are intact exactly when no header is cut. */
  lemma {:induction false} IntactMeansUncut(a: Inbox, o: nat, ps: seq<Blob>)
    requires Sendable(ps)
    ensures Intact(a, o, ps) == |ps| <==> Uncut(a, o, ps)
    decreases |ps|
  {
    if ps != [] {
      UncutStep(a, o, ps);
      IntactMeansUncut(a, o + HEADER + |ps[0]|, ps[1..]);
    }
  }

  // ---------------------------------------------------------------- writing

  /** What a write does: it takes at most so many bytes, fails, or takes some and finds the device closed. */
  datatype Acceptance = Takes(n: nat) | Fails | Closes(n: nat)

  function Least(a: nat, b: nat): nat { if a < b then a else b }

  predicate AllTake(ws: seq<Acceptance>) { ws == [] || (ws[0].Takes? && AllTake(ws[1..])) }

  /** The bytes taken before the first write that goes wrong. */
  function Room(ws: seq<Acceptance>): nat {
    if ws == [] || !ws[0].Takes? then 0 else ws[0].n + Room(ws[1..])
  }

  /** No write goes wrong before n bytes are written. */
  predicate Lasts(ws: seq<Acceptance>, n: nat) { AllTake(ws) || Room(ws) >= n }

  /** The bytes that get out. */
  function Carried(ws: seq<Acceptance>, n: nat): (m: nat)
    ensures m <= n
    ensures Lasts(ws, n) ==> m == n
    decreases |ws|
  {
    if ws == [] || n == 0 then n
    else match ws[0]
      case Takes(k) =>
        if k >= n then n else k + Carried(ws[1..], n - k)
      case Fails => 0
      case Closes(k) => Least(k, n)
  }

  /** One end of a local socket. When `accepting` is used up, writes take everything. */
  class Device {
    var open: bool
    var inbox: Inbox
    var accepting: seq<Acceptance>
    var outgoing: Blob

    constructor (open: bool, inbox: Inbox, accepting: seq<Acceptance>)
      ensures this.open == open && this.inbox == inbox && this.accepting == accepting && outgoing == []
    {
      this.open, this.inbox, this.accepting, outgoing := open, inbox, accepting, [];
    }

    function Unread(): Blob
      reads this
    {
      inbox.Unread()
    }

    method Write(bytes: Blob) returns (written: int)
      modifies this`open, this`accepting, this`outgoing
      ensures old(accepting) == [] ==>
        written == |bytes| && open == old(open) && accepting == [] && outgoing == old(outgoing) + bytes
      ensures old(accepting) != [] ==>
        && accepting == old(accepting)[1..]
        && match old(accepting)[0]
           case Takes(k) =>
             written == Least(k, |bytes|) && open == old(open) && outgoing == old(outgoing) + bytes[..written]
           case Fails => written == -1 && open == old(open) && outgoing == old(outgoing)
           case Closes(k) =>
             written == Least(k, |bytes|) && !open && outgoing == old(outgoing) + bytes[..written]
    {
      if accepting == [] {
        written, outgoing := |bytes|, outgoing + bytes;
        return;
      }
      match accepting[0] {
        case Takes(k) =>
          written := Least(k, |bytes|);
          outgoing := outgoing + bytes[..written];
        case Fails =>
          written := -1;
        case Closes(k) =>
          written := Least(k, |bytes|);
          outgoing, open := outgoing + bytes[..written], false;
      }
      accepting := accepting[1..];
    }

    method WriteWhole(bytes: Blob)
      modifies this`outgoing
      ensures outgoing == old(outgoing) + bytes
    {
      outgoing := outgoing + bytes;
    }

    /** The next chunk arrives. */
    method WaitForReadyRead()
      requires inbox.buffered == [] && inbox.arriving != []
      modifies this`inbox
      ensures inbox == old(inbox).Next() && Unread() == old(Unread())
    {
      inbox := inbox.Next();
    }

    /** A read returns what has arrived, but no more than asked for. */
    method Read(max: nat) returns (bytes: Blob)
      modifies this`inbox
      ensures |bytes| == Least(max, |old(inbox).buffered|) && bytes + Unread() == old(Unread())
      ensures inbox == old(inbox).(buffered := old(inbox).buffered[|bytes|..])
    {
      var k := Least(max, |inbox.buffered|);
      bytes := inbox.buffered[..k];
      assert bytes + inbox.buffered[k..] == inbox.buffered;
      Regroup(bytes, inbox.buffered[k..], Concat(inbox.arriving));
      inbox := inbox.(buffered := inbox.buffered[k..]);
    }
  }

  class SafeDataStream {
    const device: Device
    var data: Blob

    constructor (device: Device)
      ensures this.device == device && data == []
    {
      this.device, data := device, [];
    }

    /** Writes one frame whatever the pattern of short writes, and empties the buffer. If a write fails or the
        device closes first, the frame breaks off there and the buffer stays. */
    method Send()
      requires |data| < MAX_LENGTH
      modifies this`data, device`open, device`accepting, device`outgoing
      ensures old(device.open) ==>
        && device.outgoing
           == old(device.outgoing) + FrameUpTo(old(data), Carried(old(device.accepting), |old(data)|))
        && (if Lasts(old(device.accepting), |old(data)|) then data == [] && device.open else data == old(data))
        && (AllTake(old(device.accepting)) ==> AllTake(device.accepting))
      ensures !old(device.open) ==>
        device.outgoing == old(device.outgoing) && data == old(data) && !device.open
        && device.accepting == old(device.accepting)
    {
      if !device.open {
        return;
      }
      ghost var before := device.outgoing;
      device.WriteWhole(HeaderOf(|data|));
      ghost var carried := Carried(device.accepting, |data|);
      var whole := WritePayload();
      Regroup(before, HeaderOf(|data|), data[..carried]);
      if !whole {
        return;
      }
      assert data[..|data|] == data;
      Reset();
    }

    /** The loop over short writes. */
    method WritePayload() returns (whole: bool)
      requires device.open
      modifies device`open, device`accepting, device`outgoing
      ensures device.outgoing == old(device.outgoing) + data[..Carried(old(device.accepting), |data|)]
      ensures whole == Lasts(old(device.accepting), |data|) && (whole ==> device.open)
      ensures AllTake(old(device.accepting)) ==> AllTake(device.accepting)
    {
      var length, writtenTotal := |data|, 0;
      assert old(device.outgoing) + data[..0] == old(device.outgoing);
      while writtenTotal != length
        invariant 0 <= writtenTotal <= length && device.open
        invariant device.outgoing == old(device.outgoing) + data[..writtenTotal]
        invariant Lasts(old(device.accepting), length) <==> Lasts(device.accepting, length - writtenTotal)
        invariant Carried(old(device.accepting), length)
               == writtenTotal + Carried(device.accepting, length - writtenTotal)
        invariant AllTake(old(device.accepting)) ==> AllTake(device.accepting)
        decreases |device.accepting|, length - writtenTotal
      {
        if device.accepting != [] { Consume(device.accepting, length - writtenTotal); }
        var written := device.Write(data[writtenTotal..]);
        if written >= 0 { Grow(old(device.outgoing), data, writtenTotal, written); }
        if written < 0 || !device.open {
          return false;
        }
        writtenTotal := writtenTotal + written;
      }
      return true;
    }

    static lemma Grow(before: Blob, p: Blob, i: nat, k: nat)
      requires i + k <= |p|
      ensures before + p[..i] + p[i..][..k] == before + p[..i + k]
    {
      assert p[..i] + p[i..][..k] == p[..i + k];
    }

    static lemma Consume(ws: seq<Acceptance>, n: nat)
      requires ws != [] && n > 0
      ensures ws[0].Takes? ==>
        && (Lasts(ws, n) <==> Lasts(ws[1..], n - Least(ws[0].n, n)))
        && (AllTake(ws) ==> AllTake(ws[1..]))
        && Carried(ws, n) == Least(ws[0].n, n) + Carried(ws[1..], n - Least(ws[0].n, n))
      ensures !ws[0].Takes? ==> !Lasts(ws, n) && !AllTake(ws)
    {
    }

    /** With a frame p at the head of the stream: if its header arrives whole, exactly p is received and the
        stream stands at the next frame. A header in pieces gives nothing, loses the first piece, and leaves the
        stream in the middle of a frame. */
    method Receive(ghost p: Blob, ghost tail: Blob) returns (got: nat)
      requires |p| < MAX_LENGTH
      requires device.open ==> device.Unread() == Frame(p) + tail && NoneEmpty(device.inbox.arriving)
      modifies this`data, device`inbox
      ensures device.open && old(device.inbox).HeaderWhole(0) ==>
        && got == HEADER && data == p && device.Unread() == tail
        && device.inbox == old(device.inbox).Skip(HEADER + |p|)
      ensures device.open && !old(device.inbox).HeaderWhole(0) ==>
        && 0 < got < HEADER && old(device.inbox).Cut(got)
        && data == old(data) && device.Unread() == (Frame(p) + tail)[got..]
      ensures !device.open ==> got == 0 && data == old(data) && device.inbox == old(device.inbox)
    {
      if !device.open {
        return 0;
      }
      var length;
      got, length := ReceiveLength(p, tail);
      if length < 0 {
        return;
      }
      Reset();
      SkipHeaders(old(device.inbox), HEADER, 0);
      ReceiveBody(length, p, tail);
      SkipSkip(old(device.inbox), HEADER, |p|);
    }

    /** Waits if nothing has arrived, then reads. */
    method ReadSome(max: nat) returns (piece: Blob)
      requires device.inbox.FirstSize() > 0 && max > 0
      modifies device`inbox
      ensures |piece| == Least(max, old(device.inbox).FirstSize())
      ensures piece + device.Unread() == old(device.Unread())
      ensures device.inbox == old(device.inbox).Skip(|piece|)
    {
      if device.inbox.buffered == [] {
        device.WaitForReadyRead();
      }
      piece := device.Read(max);
    }

    /** Appends pieces until the announced length is reached. */
    method ReceiveBody(length: nat, ghost p: Blob, ghost tail: Blob)
      requires device.Unread() == p + tail && data == [] && length == |p| && NoneEmpty(device.inbox.arriving)
      modifies this`data, device`inbox
      ensures data == p && device.Unread() == tail
      ensures device.inbox == old(device.inbox).Skip(|p|)
    {
      while |data| < length
        invariant |data| <= length
        invariant device.Unread() == (p + tail)[|data|..] && data == p[..|data|]
        invariant device.inbox == old(device.inbox).Skip(|data|)
        decreases length - |data|
      {
        ghost var i, unread := |data|, device.Unread();
        SkipHeaders(old(device.inbox), i, 0);
        SomethingComes(device.inbox);
        var piece := ReadSome(length - |data|);
        Advance(p, tail, i, unread, piece, device.Unread());
        SkipSkip(old(device.inbox), i, |piece|);
        data := data + piece;
      }
    }

    static lemma SomethingComes(a: Inbox)
      requires a.Unread() != [] && NoneEmpty(a.arriving)
      ensures a.FirstSize() > 0
    {
    }

    /** Reads the length over a variable that starts as -1. */
    method ReceiveLength(ghost p: Blob, ghost tail: Blob) returns (got: nat, length: int)
      requires |p| < MAX_LENGTH && device.Unread() == Frame(p) + tail && NoneEmpty(device.inbox.arriving)
      modifies device`inbox
      ensures 0 < got <= HEADER && device.Unread() == (Frame(p) + tail)[got..]
      ensures got == HEADER <==> old(device.inbox).HeaderWhole(0)
      ensures got == HEADER ==>
        length == |p| && device.Unread() == p + tail && device.inbox == old(device.inbox).Skip(HEADER)
      ensures got < HEADER ==> length < 0 && old(device.inbox).Cut(got)
    {
      ghost var stream := Frame(p) + tail;
      SomethingComes(device.inbox);
      FirstPiece(device.inbox);
      var header := ReadSome(HEADER);
      got := |header|;
      assert header == stream[..got] && device.Unread() == stream[got..];
      var image := header + seq(HEADER - got, _ => 255);
      length := Int64(image);
      if got < HEADER {
        ShortHeaderIsNegative(image);
      } else {
        FrameParts(p, tail);
        HeaderRoundTrip(|p|);
        assert image == HeaderOf(|p|);
      }
    }

    method Reset()
      modifies this`data
      ensures data == []
    {
      data := [];
    }
  }

  /** One send per payload writes the frames in order, whatever the pattern of short writes. */
  method SendAll(s: SafeDataStream, ps: seq<Blob>)
    requires s.device.open && Sendable(ps) && AllTake(s.device.accepting)
    modifies s`data, s.device`open, s.device`accepting, s.device`outgoing
    ensures s.device.outgoing == old(s.device.outgoing) + FrameAll(ps)
    ensures s.device.open && AllTake(s.device.accepting)
  {
    ghost var sent := [];
    for i := 0 to |ps|
      invariant s.device.open && AllTake(s.device.accepting)
      invariant s.device.outgoing == old(s.device.outgoing) + sent && FrameAll(ps) == sent + FrameAll(ps[i..])
    {
      s.data := ps[i];
      s.Send();
      assert ps[i][..|ps[i]|] == ps[i];
      NextPayload(ps, i);
      Regroup(old(s.device.outgoing), sent, Frame(ps[i]));
      Regroup(sent, Frame(ps[i]), FrameAll(ps[i + 1..]));
      sent := sent + Frame(ps[i]);
    }
    assert ps[|ps|..] == [] && sent + [] == sent;
  }

  lemma NextPayload(ps: seq<Blob>, i: nat)
    requires i < |ps|
    ensures ps[i..][0] == ps[i] && ps[i..][1..] == ps[i + 1..] && ps[..i + 1] == ps[..i] + [ps[i]]
  {
  }

  /** One receive, n bytes after the start of the stream. */
  method ReceiveNext(s: SafeDataStream, ghost start: Inbox, ghost n: nat, ghost left: seq<Blob>, ghost tail: Blob)
    returns (got: nat)
    requires s.device.open && Sendable(left) && left != [] && NoneEmpty(start.arriving)
    requires s.device.inbox == start.Skip(n) && s.device.Unread() == FrameAll(left) + tail
    modifies s`data, s.device`inbox
    ensures got == HEADER <==> start.HeaderWhole(n)
    ensures got <= HEADER
    ensures got == HEADER ==>
      && s.data == left[0] && s.device.Unread() == FrameAll(left[1..]) + tail
      && s.device.inbox == start.Skip(n + HEADER + |left[0]|)
  {
    Behead(left, tail);
    SkipHeaders(start, n, 0);
    SkipSkip(start, n, HEADER + |left[0]|);
    got := s.Receive(left[0], FrameAll(left[1..]) + tail);
  }

  /** As many receives give the payloads in order up to the first header that arrives in pieces. If there is
      none, every later byte is left unread. */
  method ReceiveAll(s: SafeDataStream, ghost ps: seq<Blob>, count: nat, ghost tail: Blob)
    returns (received: seq<Blob>)
    requires s.device.open && Sendable(ps) && count == |ps|
    requires s.device.Unread() == FrameAll(ps) + tail && NoneEmpty(s.device.inbox.arriving)
    modifies s`data, s.device`inbox
    ensures received == ps[..Intact(old(s.device.inbox), 0, ps)]
    ensures |received| == |ps| ==> s.device.Unread() == tail
  {
    received := [];
    ghost var start, left, n: nat := s.device.inbox, ps, 0;
    for i := 0 to count
      invariant received == ps[..i] && left == ps[i..]
      invariant s.device.inbox == start.Skip(n) && s.device.Unread() == FrameAll(left) + tail
      invariant Intact(start, 0, ps) == i + Intact(start, n, left)
    {
      NextPayload(ps, i);
      var got := ReceiveNext(s, start, n, left, tail);
      if got < HEADER {
        return;
      }
      n, left := n + HEADER + |left[0]|, ps[i + 1..];
      received := received + [s.data];
    }
    assert [] + tail == tail;
  }

  /** The network carries the bytes written at one end to the other, in chunks of its choice. */
  method Carry(from: Device, to: Device, chunks: seq<Blob>)
    requires from != to && Concat(chunks) == from.outgoing && NoneEmpty(chunks) && to.inbox == NOTHING
    modifies from`outgoing, to`inbox
    ensures from.outgoing == [] && to.inbox == Inbox([], chunks)
  {
    to.inbox := Inbox([], chunks);
    from.outgoing := [];
  }

  lemma NothingAround(b: Blob)
    ensures [] + b == b && b + [] == b
  {
  }

  /** A list of payloads sent at one end and received at the other, for every pattern of short writes and every
      chunking: the two ends make a message queue exactly as long as no header is cut. */
  method Relay(a: SafeDataStream, b: SafeDataStream, ps: seq<Blob>, chunks: seq<Blob>)
    returns (received: seq<Blob>)
    requires a != b && a.device != b.device && a.device.open && b.device.open && Sendable(ps)
    requires a.device.outgoing == [] && AllTake(a.device.accepting) && b.device.inbox == NOTHING
    requires Concat(chunks) == FrameAll(ps) && NoneEmpty(chunks)
    modifies a, a.device, b, b.device
    ensures received == ps[..Intact(Inbox([], chunks), 0, ps)]
    ensures received == ps <==> Uncut(Inbox([], chunks), 0, ps)
    ensures received == ps ==> b.device.Unread() == []
    ensures a.device.outgoing == []
  {
    ghost var inbox := Inbox([], chunks);
    NothingAround(FrameAll(ps));
    SendAll(a, ps);
    Carry(a.device, b.device, chunks);
    received := ReceiveAll(b, ps, |ps|, []);
    IntactMeansUncut(inbox, 0, ps);
    assert ps[..|ps|] == ps;
  }
}
