/** Docker's multiplexed log stream and `demux`, which strips its frame headers
    (agent/internal/actions/system.go).

    A frame is a stream number (1 or 2), three zero bytes, the payload's length in four bytes with the
    most significant first, and the payload.  The stream may be cut at any byte by the reader's limit.
 */
module Demux {

  type byte = x: int | 0 <= x < 256

  /** Four bytes, most significant first. */
  function BigEndian(b: seq<byte>): (n: nat)
    requires |b| == 4
  {
    var b0: int, b1: int, b2: int, b3: int := b[0], b[1], b[2], b[3];
    ((b0 * 256 + b1) * 256 + b2) * 256 + b3
  }

  predicate HasHeader(b: seq<byte>) {
    |b| >= 8 && (b[0] == 1 || b[0] == 2) && b[1] == 0 && b[2] == 0 && b[3] == 0
  }

  /** The length of the first payload, cut to what is there. */
  function Taken(b: seq<byte>): (n: nat)
    requires |b| >= 8
    ensures 8 + n <= |b|
  {
    var n := BigEndian(b[4..8]);
    if n > |b| - 8 then |b| - 8 else n
  }

  function Payloads(b: seq<byte>): seq<byte> {
    if |b| < 8 then [] else b[8..8 + Taken(b)] + Payloads(b[8 + Taken(b)..])
  }

  /** Input that does not start like a frame (a terminal's) comes back as it is. */
  function Stripped(b: seq<byte>): seq<byte> {
    if HasHeader(b) then Payloads(b) else b
  }

  lemma PayloadsStep(b: seq<byte>, n: nat)
    requires |b| >= 8 && n == Taken(b)
    ensures Payloads(b) == b[8..][..n] + Payloads(b[8..][n..])
  {
    assert b[8..][..n] == b[8..8 + n] && b[8..][n..] == b[8 + n..];
  }

  /** The length is read most significant byte first. */
  lemma LengthIs(b: seq<byte>)
    requires |b| == 4
    ensures BigEndian(b) == b[0] as int * 16_777_216 + b[1] as int * 65_536 + b[2] as int * 256 + b[3] as int
  {
  }

  method Strip(src: seq<byte>) returns (out: seq<byte>)
    ensures out == Stripped(src)
    // what is too short, or does not start with stream 1 or 2 and three zeros, comes back as it is
    ensures |src| < 8 || (src[0] != 1 && src[0] != 2) || src[1] != 0 || src[2] != 0 || src[3] != 0 ==> out == src
  {
    if !HasHeader(src) {
      return src;
    }
    var b := src;
    out := [];
    while |b| >= 8
      invariant out + Payloads(b) == Payloads(src)
      decreases |b|
    {
      var n := BigEndian(b[4..8]);
      ghost var was := b;
      b := b[8..];
      if n > |b| {
        n := |b|;
      }
      PayloadsStep(was, n);
      Associates(out, b[..n], Payloads(b[n..]));
      out := out + b[..n];
      b := b[n..];
    }
    assert out + [] == out;
  }

  // ----- Frames -----

  datatype Frame = Frame(stream: byte, payload: seq<byte>)

  predicate Legal(f: Frame) {
    (f.stream == 1 || f.stream == 2) && |f.payload| < 0x1_0000_0000
  }

  predicate AllLegal(frames: seq<Frame>) {
    forall i :: 0 <= i < |frames| ==> Legal(frames[i])
  }

  function Length(n: nat): (b: seq<byte>)
    requires n < 0x1_0000_0000
    ensures |b| == 4
  {
    [n / 256 / 256 / 256, n / 256 / 256 % 256, n / 256 % 256, n % 256]
  }

  lemma LengthRoundTrip(n: nat)
    requires n < 0x1_0000_0000
    ensures BigEndian(Length(n)) == n
  {
    var q := n / 256;
    assert BigEndian(Length(n)) == ((q / 256 / 256 * 256 + q / 256 % 256) * 256 + q % 256) * 256 + n % 256;
    assert q / 256 / 256 * 256 + q / 256 % 256 == q / 256;
  }

  /** A byte of the stream, with whether it belongs to a payload. */
  datatype Mark = Mark(value: byte, payload: bool)

  function Header(f: Frame): (h: seq<byte>)
    requires Legal(f)
    ensures |h| == 8
  {
    [f.stream, 0, 0, 0] + Length(|f.payload|)
  }

  function MarkAll(b: seq<byte>, payload: bool): (r: seq<Mark>)
    ensures |r| == |b| && forall i :: 0 <= i < |b| ==> r[i] == Mark(b[i], payload)
  {
    if b == [] then [] else [Mark(b[0], payload)] + MarkAll(b[1..], payload)
  }

  /** The stream of the frames, each byte marked. */
  function Marked(frames: seq<Frame>): seq<Mark>
    requires AllLegal(frames)
  {
    if frames == [] then []
    else MarkAll(Header(frames[0]), false) + MarkAll(frames[0].payload, true) + Marked(frames[1..])
  }

  /** The bytes on the wire. */
  function Bytes(m: seq<Mark>): (b: seq<byte>)
    ensures |b| == |m| && forall i :: 0 <= i < |m| ==> b[i] == m[i].value
  {
    if m == [] then [] else [m[0].value] + Bytes(m[1..])
  }

  /** The payload bytes among them. */
  function Contents(m: seq<Mark>): (b: seq<byte>)
    ensures |b| <= |m|
  {
    if m == [] then [] else (if m[0].payload then [m[0].value] else []) + Contents(m[1..])
  }

  function Joined(frames: seq<Frame>): seq<byte> {
    if frames == [] then [] else frames[0].payload + Joined(frames[1..])
  }

  lemma Associates(a: seq<byte>, b: seq<byte>, c: seq<byte>)
    ensures a + (b + c) == (a + b) + c
  {
  }

  lemma {:induction false} ContentsConcat(a: seq<Mark>, b: seq<Mark>)
    ensures Contents(a + b) == Contents(a) + Contents(b)
  {
    if a == [] {
      assert a + b == b;
    } else {
      var first := if a[0].payload then [a[0].value] else [];
      assert (a + b)[0] == a[0] && (a + b)[1..] == a[1..] + b;
      ContentsConcat(a[1..], b);
      Associates(first, Contents(a[1..]), Contents(b));
    }
  }

  lemma {:induction false} ContentsMarked(b: seq<byte>, payload: bool)
    ensures Contents(MarkAll(b, payload)) == if payload then b else []
  {
    if b == [] {
    } else {
      assert MarkAll(b, payload)[1..] == MarkAll(b[1..], payload);
      ContentsMarked(b[1..], payload);
    }
  }

  lemma BytesConcat(a: seq<Mark>, b: seq<Mark>)
    ensures Bytes(a + b) == Bytes(a) + Bytes(b)
  {
  }

  lemma BytesMarked(b: seq<byte>, payload: bool)
    ensures Bytes(MarkAll(b, payload)) == b
  {
  }

  /** A frame's marks, its payload cut to `n` bytes. */
  function Piece(f: Frame, n: nat): seq<Mark>
    requires Legal(f) && n <= |f.payload|
  {
    MarkAll(Header(f), false) + MarkAll(f.payload[..n], true)
  }

  lemma PieceParts(f: Frame, n: nat)
    requires Legal(f) && n <= |f.payload|
    ensures |Piece(f, n)| == 8 + n
    ensures Bytes(Piece(f, n)) == Header(f) + f.payload[..n]
    ensures Contents(Piece(f, n)) == f.payload[..n]
  {
    BytesConcat(MarkAll(Header(f), false), MarkAll(f.payload[..n], true));
    BytesMarked(Header(f), false);
    BytesMarked(f.payload[..n], true);
    ContentsConcat(MarkAll(Header(f), false), MarkAll(f.payload[..n], true));
    ContentsMarked(Header(f), false);
    ContentsMarked(f.payload[..n], true);
  }

  /** How much of a payload lies before a cut at `k`. */
  function Before(k: nat, p: seq<byte>): nat
    requires k >= 8
  {
    if k - 8 < |p| then k - 8 else |p|
  }

  lemma PieceCut(f: Frame, k: nat)
    requires Legal(f) && 8 <= k < 8 + |f.payload|
    ensures Piece(f, |f.payload|)[..k] == Piece(f, k - 8)
  {
  }

  /** A cut stream is the first frame, perhaps cut itself, and a cut of the others. */
  lemma {:induction false} FirstPiece(frames: seq<Frame>, k: nat, n: nat)
    requires AllLegal(frames) && frames != [] && 8 <= k <= |Marked(frames)| && n == Before(k, frames[0].payload)
    ensures k - 8 - n <= |Marked(frames[1..])|
    ensures Marked(frames)[..k] == Piece(frames[0], n) + Marked(frames[1..])[..k - 8 - n]
  {
    var f, rest := frames[0], Marked(frames[1..]);
    var first := Piece(f, |f.payload|);
    assert f.payload[..|f.payload|] == f.payload;
    assert Marked(frames) == first + rest;
    PieceParts(f, |f.payload|);
    if k < |first| {
      PieceCut(f, k);
      assert (first + rest)[..k] == first[..k] + rest[..0];
    }
  }

  /** What `Payloads` does with a frame, perhaps cut. */
  lemma PayloadsFirst(f: Frame, n: nat, rest: seq<byte>)
    requires Legal(f) && n <= |f.payload| && (n < |f.payload| ==> rest == [])
    ensures var b := Header(f) + f.payload[..n] + rest; HasHeader(b) && Payloads(b) == f.payload[..n] + Payloads(rest)
  {
    var b := Header(f) + f.payload[..n] + rest;
    LengthRoundTrip(|f.payload|);
    assert b[4..8] == Length(|f.payload|);
    assert b[8..8 + n] == f.payload[..n] && b[8 + n..] == rest;
  }

  /** Fewer than eight bytes of a stream are all header. */
  lemma {:induction false} CutInHeader(frames: seq<Frame>, k: nat)
    requires AllLegal(frames) && k < 8 && k <= |Marked(frames)|
    ensures Contents(Marked(frames)[..k]) == []
  {
    if frames == [] {
    } else {
      assert Marked(frames)[..k] == MarkAll(Header(frames[0])[..k], false);
      ContentsMarked(Header(frames[0])[..k], false);
    }
  }

  lemma {:induction false} PayloadsOfCut(frames: seq<Frame>, k: nat)
    requires AllLegal(frames) && k <= |Marked(frames)|
    ensures Payloads(Bytes(Marked(frames)[..k])) == Contents(Marked(frames)[..k])
    ensures k >= 8 ==> HasHeader(Bytes(Marked(frames)[..k]))
  {
    if k < 8 {
      CutInHeader(frames, k);
    } else {
      var f := frames[0];
      var n := Before(k, f.payload);
      FirstPiece(frames, k, n);
      var rest := Marked(frames[1..])[..k - 8 - n];
      PieceParts(f, n);
      BytesConcat(Piece(f, n), rest);
      ContentsConcat(Piece(f, n), rest);
      PayloadsFirst(f, n, Bytes(rest));
      PayloadsOfCut(frames[1..], k - 8 - n);
    }
  }

  // ----- Main results -----

  /** Of a stream cut after any eight or more bytes, exactly the payload bytes before the cut come out. */
  lemma {:induction false} StripCut(frames: seq<Frame>, k: nat)
    requires AllLegal(frames)
    requires 8 <= k <= |Marked(frames)|
    ensures Stripped(Bytes(Marked(frames)[..k])) == Contents(Marked(frames)[..k])
  {
    PayloadsOfCut(frames, k);
  }

  lemma {:induction false} ContentsOfAll(frames: seq<Frame>)
    requires AllLegal(frames)
    ensures Contents(Marked(frames)) == Joined(frames)
  {
    if frames == [] {
    } else {
      var f := frames[0];
      assert f.payload[..|f.payload|] == f.payload;
      ContentsConcat(Piece(f, |f.payload|), Marked(frames[1..]));
      PieceParts(f, |f.payload|);
      ContentsOfAll(frames[1..]);
    }
  }

  /** The whole stream gives the payloads in order. */
  lemma {:induction false} StripWhole(frames: seq<Frame>)
    requires AllLegal(frames)
    ensures Stripped(Bytes(Marked(frames))) == Joined(frames)
  {
    ContentsOfAll(frames);
    assert Marked(frames)[..|Marked(frames)|] == Marked(frames);
    if frames != [] {
      StripCut(frames, |Marked(frames)|);
    }
  }

  /** A cut stream gives a prefix of the payloads. */
  lemma {:induction false} StripCutIsPrefix(frames: seq<Frame>, k: nat)
    requires AllLegal(frames)
    requires 8 <= k <= |Marked(frames)|
    ensures Stripped(Bytes(Marked(frames)[..k])) <= Joined(frames)
  {
    var m := Marked(frames);
    StripCut(frames, k);
    ContentsOfAll(frames);
    assert m == m[..k] + m[k..];
    ContentsConcat(m[..k], m[k..]);
  }
}
