/**
  Length-prefixed frames: four big-endian bytes, then that many bytes of payload. The
  daemon's reader and writer and the command line client's reader share the format.
*/
module Framing {
  import opened Options

  newtype byte = x: int | 0 <= x < 256
  type Bytes = seq<byte>

  const MAX_FRAME: nat := 16 * 1024 * 1024

  predicate Sendable(payload: Bytes) {
    1 <= |payload| <= MAX_FRAME
  }

  // struct.pack(">I", n), for a length below 2^32
  function BigEndian(n: nat): (b: Bytes)
    ensures |b| == 4
  {
    [(n / 0x100_0000 % 0x100) as byte, (n / 0x1_0000 % 0x100) as byte, (n / 0x100 % 0x100) as byte, (n % 0x100) as byte]
  }

  function FromBigEndian(b: Bytes): (n: nat)
    requires |b| == 4
    ensures n < 0x1_0000_0000
  {
    b[0] as int * 0x100_0000 + b[1] as int * 0x1_0000 + b[2] as int * 0x100 + b[3] as int
  }

  // The first byte in which they differ is smaller in a.
  ghost predicate LessAt(a: Bytes, b: Bytes, k: nat) {
    k < |a| == |b| && a[..k] == b[..k] && a[k] < b[k]
  }

  /** The first byte counts most: lengths compare as their bytes do from the front. */
  lemma BigEndianOrders(a: Bytes, b: Bytes)
    requires |a| == 4 && |b| == 4
    ensures FromBigEndian(a) < FromBigEndian(b) <==> exists k :: LessAt(a, b, k)
  {
    if a != b {
      var k := FirstDifference(a, b);
      if a[k] < b[k] {
        assert LessAt(a, b, k);
        LessIsLess(a, b, k);
      } else {
        LessIsLess(b, a, k);
      }
    }
    forall k | LessAt(a, b, k) ensures FromBigEndian(a) < FromBigEndian(b) { LessIsLess(a, b, k); }
  }

  lemma FirstDifference(a: Bytes, b: Bytes) returns (k: nat)
    requires |a| == |b| && a != b
    ensures k < |a| && a[..k] == b[..k] && a[k] != b[k]
  {
    k := 0;
    while a[k] == b[k]
      invariant k < |a| && a[..k] == b[..k]
      invariant exists i :: k <= i < |a| && a[i] != b[i]
      decreases |a| - k
    {
      assert a[..k + 1] == a[..k] + [a[k]] && b[..k + 1] == b[..k] + [b[k]];
      k := k + 1;
    }
  }

  lemma LessIsLess(a: Bytes, b: Bytes, k: nat)
    requires |a| == 4 && LessAt(a, b, k)
    ensures FromBigEndian(a) < FromBigEndian(b)
  {
    assert forall i :: 0 <= i < k ==> a[i] == a[..k][i] == b[..k][i] == b[i];
  }

  lemma BigEndianRoundTrip(n: nat)
    requires n < 0x1_0000_0000
    ensures FromBigEndian(BigEndian(n)) == n
  {
    var q1 := n / 0x100;
    var q2 := q1 / 0x100;
    var q3 := q2 / 0x100;
    assert n / 0x1_0000 == q2 && n / 0x100_0000 == q3 by { Quotients(n); }
    assert n == q1 * 0x100 + n % 0x100 && q1 == q2 * 0x100 + q1 % 0x100 && q2 == q3 * 0x100 + q2 % 0x100;
    assert q3 < 0x100;
    var b := BigEndian(n);
    assert b[0] as int == q3 && b[1] as int == q2 % 0x100 && b[2] as int == q1 % 0x100 && b[3] as int == n % 0x100;
  }

  lemma Quotients(n: nat)
    ensures n / 0x1_0000 == n / 0x100 / 0x100 && n / 0x100_0000 == n / 0x100 / 0x100 / 0x100
  {
  }

  function Frame(payload: Bytes): (f: Bytes)
    ensures |f| == |payload| + 4
  {
    BigEndian(|payload|) + payload
  }

  function Encode(payloads: seq<Bytes>): Bytes {
    if payloads == [] then [] else Frame(payloads[0]) + Encode(payloads[1..])
  }

  datatype Reading = Payload(bytes: Bytes) | ClosedBeforeFrame | BadLength(n: nat) | ClosedMidFrame

  // What one read makes of the bytes still to come, and what it leaves.
  function ReadOne(b: Bytes): (Reading, Bytes) {
    if |b| < 4 then (ClosedBeforeFrame, [])
    else
      var n := FromBigEndian(b[..4]);
      if n == 0 || n > MAX_FRAME then (BadLength(n), b[4..])
      else if |b| - 4 < n then (ClosedMidFrame, [])
      else (Payload(b[4..4 + n]), b[4 + n..])
  }

  // Reading until the first failure.
  function Decode(b: Bytes): (seq<Bytes>, Reading)
    decreases |b|
  {
    var (first, rest) := ReadOne(b);
    if first.Payload? then
      var (more, last) := Decode(rest);
      ([first.bytes] + more, last)
    else ([], first)
  }

  // ---- the code ----------------------------------------------------------------

  class StreamWriter {
    var sent: Bytes

    constructor ()
      ensures sent == []
    {
      sent := [];
    }

    // `write_message`: an oversized payload is refused before anything is written.
    method WriteMessage(payload: Bytes) returns (ok: bool)
      modifies this
      ensures ok <==> |payload| <= MAX_FRAME
      ensures sent == if ok then old(sent) + Frame(payload) else old(sent)
    {
      if |payload| > MAX_FRAME { return false; }
      sent := sent + BigEndian(|payload|);
      sent := sent + payload;
      ok := true;
    }
  }

  // The receiving end; `pending` is everything the peer sends before it closes.
  class StreamReader {
    var pending: Bytes

    constructor (bytes: Bytes)
      ensures pending == bytes
    {
      pending := bytes;
    }

    // recv(n): any non-empty part of what is pending, up to n bytes; empty at the end.
    method Recv(n: nat) returns (chunk: Bytes)
      requires n >= 1
      modifies this
      ensures old(pending) == chunk + pending
      ensures |chunk| <= n && (chunk == [] <==> old(pending) == [])
    {
      if pending == [] { return []; }
      assert 1 <= 1 <= n && 1 <= |pending|;
      var k: nat :| 1 <= k <= n && k <= |pending|;
      chunk := pending[..k];
      pending := pending[k..];
    }

    // `_recv_exact` and `readexactly`; None is the short read.
    method RecvExact(n: nat) returns (r: Option<Bytes>)
      modifies this
      ensures |old(pending)| >= n ==> r == Some(old(pending)[..n]) && pending == old(pending)[n..]
      ensures |old(pending)| < n ==> r == None && pending == []
    {
      var buf: Bytes := [];
      ghost var all := pending;
      while |buf| < n
        invariant |buf| <= n && all == buf + pending
        decreases n - |buf|
      {
        var chunk := Recv(n - |buf|);
        if chunk == [] { return None; }
        buf := buf + chunk;
      }
      r := Some(buf);
    }

    // `read_message` and `read_response`, up to parsing the payload.
    method ReadMessage() returns (r: Reading)
      modifies this
      ensures (r, pending) == ReadOne(old(pending))
    {
      ghost var before := pending;
      var header := RecvExact(4);
      if header.None? { return ClosedBeforeFrame; }
      var n := FromBigEndian(header.value);
      if n == 0 || n > MAX_FRAME { return BadLength(n); }
      var body := RecvExact(n);
      if body.None? { return ClosedMidFrame; }
      r := Payload(body.value);
      assert before[4..][..n] == before[4..4 + n] && before[4..][n..] == before[4 + n..];
    }

    method ReadAll() returns (payloads: seq<Bytes>, last: Reading)
      modifies this
      ensures (payloads, last) == Decode(old(pending))
    {
      hide ReadOne;
      payloads := [];
      ghost var all := Decode(pending);
      ghost var before := pending;
      assert payloads + all.0 == all.0;
      last := ReadMessage();
      while last.Payload?
        invariant (last, pending) == ReadOne(before)
        invariant all.0 == payloads + Decode(before).0 && all.1 == Decode(before).1
        decreases |before|
      {
        ReadShrinks(before);
        DecodeStep(before);
        payloads := payloads + [last.bytes];
        before := pending;
        last := ReadMessage();
      }
      DecodeStep(before);
      assert payloads + [] == payloads;
    }
  }

  lemma DecodeStep(b: Bytes)
    ensures var (first, rest) := ReadOne(b);
      if first.Payload? then Decode(b) == ([first.bytes] + Decode(rest).0, Decode(rest).1)
      else Decode(b) == ([], first)
  {
  }

  lemma ReadShrinks(b: Bytes)
    ensures ReadOne(b).0.Payload? ==> |ReadOne(b).1| < |b|
  {
  }

  // ---- round trips ---------------------------------------------------------------

  /** One frame reads back exactly when its payload is within 1..16 MiB. */
  lemma FrameReads(payload: Bytes, rest: Bytes)
    requires |payload| <= MAX_FRAME
    ensures ReadOne(Frame(payload) + rest) == (Payload(payload), rest) <==> Sendable(payload)
    ensures payload == [] ==> ReadOne(Frame(payload) + rest) == (BadLength(0), rest)
  {
    hide BigEndian, FromBigEndian;
    var b := Frame(payload) + rest;
    assert b[..4] == BigEndian(|payload|);
    BigEndianRoundTrip(|payload|);
    assert b[4..4 + |payload|] == payload && b[4 + |payload|..] == rest;
  }

  /** Any list of sendable payloads reads back as itself, then the clean close. */
  lemma {:induction false} RoundTrip(payloads: seq<Bytes>)
    requires forall p :: p in payloads ==> Sendable(p)
    ensures Decode(Encode(payloads)) == (payloads, ClosedBeforeFrame)
  {
    hide ReadOne, Frame;
    if payloads == [] {
      ShortIsClosed([]);
    } else {
      var first, rest := payloads[0], payloads[1..];
      assert first in payloads && forall p :: p in rest ==> p in payloads;
      FrameReads(first, Encode(rest));
      RoundTrip(rest);
      ReadShrinks(Frame(first) + Encode(rest));
      assert payloads == [first] + rest;
    }
  }

  lemma ShortIsClosed(b: Bytes)
    ensures |b| < 4 ==> ReadOne(b) == (ClosedBeforeFrame, [])
  {
  }

  // A proper prefix of one frame never yields a payload.
  lemma CutFrame(payload: Bytes, k: nat)
    requires Sendable(payload) && k < |payload| + 4
    ensures ReadOne(Frame(payload)[..k]) == (if k < 4 then ClosedBeforeFrame else ClosedMidFrame, [])
  {
    hide BigEndian, FromBigEndian;
    if k >= 4 {
      assert Frame(payload)[..k][..4] == BigEndian(|payload|);
      BigEndianRoundTrip(|payload|);
    }
  }

  // How many frames are complete within the first k bytes.
  function CompleteFrames(payloads: seq<Bytes>, k: nat): (m: nat)
    ensures m <= |payloads|
  {
    if payloads == [] || k < |payloads[0]| + 4 then 0
    else 1 + CompleteFrames(payloads[1..], k - (|payloads[0]| + 4))
  }

  /** A truncated stream gives its complete frames and then an error: the clean close at a
      frame boundary or inside a header, the mid-frame close inside a payload. */
  lemma {:induction false} Truncated(payloads: seq<Bytes>, k: nat)
    requires forall p :: p in payloads ==> Sendable(p)
    requires k <= |Encode(payloads)|
    ensures var m := CompleteFrames(payloads, k);
      && Decode(Encode(payloads)[..k]).0 == payloads[..m]
      && (forall p :: p in payloads[..m] ==> p in payloads)
      && |Encode(payloads[..m])| <= k
      && (k < |Encode(payloads[..m])| + 4 ==> Decode(Encode(payloads)[..k]).1 == ClosedBeforeFrame)
      && (k >= |Encode(payloads[..m])| + 4 ==> Decode(Encode(payloads)[..k]).1 == ClosedMidFrame)
  {
    hide ReadOne, Frame;
    var b := Encode(payloads)[..k];
    if payloads == [] {
      ShortIsClosed(b);
    } else {
      var first, rest := payloads[0], payloads[1..];
      assert first in payloads && forall p :: p in rest ==> p in payloads;
      if k < |first| + 4 {
        assert b == Frame(first)[..k];
        CutFrame(first, k);
      } else {
        var k' := k - (|first| + 4);
        assert b == Frame(first) + Encode(rest)[..k'];
        FrameReads(first, Encode(rest)[..k']);
        Truncated(rest, k');
        var m := CompleteFrames(rest, k');
        assert payloads[..m + 1] == [first] + rest[..m] && payloads[..m + 1][1..] == rest[..m];
      }
    }
  }

  lemma ReadIsSound(b: Bytes)
    ensures var (r, rest) := ReadOne(b);
      r.Payload? ==> Sendable(r.bytes) && Frame(r.bytes) + rest == b
  {
    if |b| >= 4 {
      ToAndFromBigEndian(b[..4]);
      var n := FromBigEndian(b[..4]);
      if 0 < n <= MAX_FRAME && n <= |b| - 4 {
        assert b == b[..4] + b[4..4 + n] + b[4 + n..];
      }
    }
  }

  lemma ToAndFromBigEndian(b: Bytes)
    requires |b| == 4
    ensures BigEndian(FromBigEndian(b)) == b
  {
    var n3 := FromBigEndian(b);
    var n1 := b[0] as int * 0x100 + b[1] as int;
    var n2 := n1 * 0x100 + b[2] as int;
    assert n3 == n2 * 0x100 + b[3] as int;
    DigitSplit(n2, b[3] as int);
    DigitSplit(n1, b[2] as int);
    DigitSplit(b[0] as int, b[1] as int);
    assert n3 / 0x1_0000 == n2 / 0x100 && n3 / 0x100_0000 == n1 / 0x100;
  }

  lemma DigitSplit(q: nat, r: nat)
    requires r < 0x100
    ensures (q * 0x100 + r) / 0x100 == q && (q * 0x100 + r) % 0x100 == r
  {
  }

  /** Whatever bytes arrive, the payloads read are the ones framed at their front. */
  lemma {:induction false} DecodeIsSound(b: Bytes)
    ensures forall p :: p in Decode(b).0 ==> Sendable(p)
    ensures Encode(Decode(b).0) <= b
    decreases |b|
  {
    hide ReadOne, Frame;
    ReadIsSound(b);
    ReadShrinks(b);
    var (first, rest) := ReadOne(b);
    if first.Payload? {
      DecodeIsSound(rest);
      var more := Decode(rest).0;
      assert Decode(b).0 == [first.bytes] + more && ([first.bytes] + more)[1..] == more;
    }
  }

  // The writer accepts an empty payload that no reader takes.
  lemma EmptyFrameIsUnreadable(rest: Bytes)
    ensures Decode(Encode([[]]) + rest) == ([], BadLength(0))
  {
    FrameReads([], rest);
    assert Encode([[]]) == Frame([]);
  }
}
