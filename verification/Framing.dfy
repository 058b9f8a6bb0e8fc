/**
 Channel messages on a byte stream (libchannelserver/ChannelMessage.h, ChannelSession::onRead): a length-prefixed
 frame, and the loop that cuts frames out of whatever the reads bring.
 */
module Framing {
  import opened BigEndian

  const HEADER_LENGTH: nat := 4 + 2 + 32 + 4
  const MAX_LENGTH: nat := 1024 * 1024 * 1024

  /** `result` is a 32-bit signed number. */
  datatype Frame = Frame(kind: nat, tag: seq<byte>, result: int, data: seq<byte>)

  /** What may be sent: field widths as declared, 32 bytes of seq, and a length the reader accepts. */
  predicate Sendable(f: Frame) {
    && f.kind < 0x1_0000 && -0x8000_0000 <= f.result < 0x8000_0000
    && |f.tag| == 32 && HEADER_LENGTH + |f.data| <= MAX_LENGTH
  }

  function Unsigned(x: int): (r: nat) { x % 0x1_0000_0000 }

  function Signed(x: nat): int { if x < 0x8000_0000 then x else x - 0x1_0000_0000 }

  function Encoded(f: Frame): seq<byte> {
    ToBytes(HEADER_LENGTH + |f.data|, 4) + ToBytes(f.kind, 2) + f.tag + ToBytes(Unsigned(f.result), 4) + f.data
  }

  /**
   decode returns the frame's length, 0 for "not all here yet", -1 for
   "too long"; a length below the header's has no meaning.
   */
  datatype Decoding = Got(frame: Frame, length: nat) | More | TooLong | Undefined

  function Length(s: seq<byte>): nat
    requires |s| >= 4
  {
    FromBytes(s[..4])
  }

  function Decoded(s: seq<byte>): Decoding {
    if |s| < HEADER_LENGTH then More
    else if Length(s) > MAX_LENGTH then TooLong
    else if |s| < Length(s) then More
    else if Length(s) < HEADER_LENGTH then Undefined
    else Got(Frame(FromBytes(s[4..6]), s[6..38], Signed(FromBytes(s[38..42])), s[42..Length(s)]), Length(s))
  }

  lemma RoundTrip(f: Frame, rest: seq<byte>)
    requires Sendable(f)
    ensures |Encoded(f)| == HEADER_LENGTH + |f.data| && Decoded(Encoded(f) + rest) == Got(f, |Encoded(f)|)
  {
    var s, n := Encoded(f) + rest, HEADER_LENGTH + |f.data|;
    assert |s| == n + |rest| && s[6..38] == f.tag && s[42..n] == f.data by { Fields(f, rest); }
    assert FromBytes(s[..4]) == n by { Fields(f, rest); PowValues(); Exact(n, 4); }
    assert FromBytes(s[4..6]) == f.kind by { Fields(f, rest); PowValues(); Exact(f.kind, 2); }
    assert FromBytes(s[38..42]) == Unsigned(f.result) by { Fields(f, rest); PowValues(); Exact(Unsigned(f.result), 4); }
  }

  lemma Fields(f: Frame, rest: seq<byte>)
    requires |f.tag| == 32
    ensures var s, n := Encoded(f) + rest, HEADER_LENGTH + |f.data|;
            && |s| == n + |rest| && s[..4] == ToBytes(n, 4) && s[4..6] == ToBytes(f.kind, 2) && s[6..38] == f.tag
            && s[38..42] == ToBytes(Unsigned(f.result), 4) && s[42..n] == f.data
  {
    var n := HEADER_LENGTH + |f.data|;
    Pieces(ToBytes(n, 4), ToBytes(f.kind, 2), f.tag, ToBytes(Unsigned(f.result), 4), f.data, rest);
  }

  lemma Pieces(a: seq<byte>, b: seq<byte>, c: seq<byte>, d: seq<byte>, e: seq<byte>, rest: seq<byte>)
    requires |a| == 4 && |b| == 2 && |c| == 32 && |d| == 4
    ensures var s := a + b + c + d + e + rest;
            && |s| == 42 + |e| + |rest|
            && s[..4] == a && s[4..6] == b && s[6..38] == c && s[38..42] == d && s[42..42 + |e|] == e
  {
    var s := a + b + c + d + e + rest;
    assert s[42..42 + |e|] == e by { Slice(a + b + c + d, e, rest); }
    Assoc(a + b + c + d, e, rest);
    assert s[38..42] == d by { Slice(a + b + c, d, e + rest); }
    Assoc(a + b + c, d, e + rest);
    assert s[6..38] == c by { Slice(a + b, c, d + (e + rest)); }
    Assoc(a + b, c, d + (e + rest));
    assert s[4..6] == b by { Slice(a, b, c + (d + (e + rest))); }
    Assoc(a, b, c + (d + (e + rest)));
  }

  /** Two bytes as a number, in network order. */
  function Short(s: seq<byte>, at: nat): nat
    requires at + 2 <= |s|
  {
    var high, low: nat := s[at], s[at + 1];
    high * 0x100 + low
  }

  function Long(s: seq<byte>, at: nat): nat
    requires at + 4 <= |s|
  {
    Short(s, at) * 0x1_0000 + Short(s, at + 2)
  }

  /**
   The frame on the wire: length, type, tag, result and data, numbers in
   network order and the result in two's complement.
   */
  lemma Layout(f: Frame)
    requires Sendable(f)
    ensures var s := Encoded(f);
            && |s| == 42 + |f.data| && Long(s, 0) == |s| && Short(s, 4) == f.kind
            && s[6..38] == f.tag && s[42..] == f.data
            && Long(s, 38) == if f.result >= 0 then f.result else f.result + 0x1_0000_0000
  {
    var s, n := Encoded(f), HEADER_LENGTH + |f.data|;
    RoundTrip(f, []);
    assert s + [] == s;
    Fields(f, []);
    FourBytes(n);
    FourBytes(Unsigned(f.result));
    TwoBytes(f.kind);
    forall k | 0 <= k < 4 ensures s[k] == ToBytes(n, 4)[k] && s[38 + k] == ToBytes(Unsigned(f.result), 4)[k] {
      assert s[..4][k] == s[k] && s[38..42][k] == s[38 + k];
    }
    forall k | 0 <= k < 2 ensures s[4 + k] == ToBytes(f.kind, 2)[k] { assert s[4..6][k] == s[4 + k]; }
    assert s[42..] == s[42..n];
  }

  lemma TwoBytes(v: nat)
    requires v < 0x1_0000
    ensures Short(ToBytes(v, 2), 0) == v
  {
    Digits(v, 2, 0);
    Digits(v, 2, 1);
    assert Pow(0) == 1 && Pow(1) == 256;
  }

  lemma FourBytes(v: nat)
    requires v < 0x1_0000_0000
    ensures Long(ToBytes(v, 4), 0) == v
  {
    var s := ToBytes(v, 4);
    assert s[0] == v / 0x100_0000 % 256 by { Digits(v, 4, 0); }
    assert s[1] == v / 0x1_0000 % 256 by { Digits(v, 4, 1); }
    assert s[2] == v / 0x100 % 256 by { Digits(v, 4, 2); }
    assert s[3] == v % 256 by { Digits(v, 4, 3); }
  }

  /** And a frame that was decoded is the encoding it came from. */
  lemma DecodedIsEncoded(s: seq<byte>)
    requires Decoded(s).Got?
    ensures var d := Decoded(s); Sendable(d.frame) && d.length <= |s| && Encoded(d.frame) == s[..d.length]
  {
    var d := Decoded(s);
    var n, f := d.length, d.frame;
    FieldsBack(s);
    EncodedFrom(f, s, n);
  }

  lemma FieldsBack(s: seq<byte>)
    requires |s| >= HEADER_LENGTH
    ensures ToBytes(FromBytes(s[..4]), 4) == s[..4]
    ensures ToBytes(FromBytes(s[4..6]), 2) == s[4..6] && FromBytes(s[4..6]) < 0x1_0000
    ensures var u := FromBytes(s[38..42]);
            ToBytes(u, 4) == s[38..42] && Unsigned(Signed(u)) == u && -0x8000_0000 <= Signed(u) < 0x8000_0000
  {
    Canonical(s[..4], 4);
    Canonical(s[4..6], 2);
    Canonical(s[38..42], 4);
  }

  lemma EncodedFrom(f: Frame, s: seq<byte>, n: nat)
    requires 42 <= n <= |s| && ToBytes(HEADER_LENGTH + |f.data|, 4) == s[..4] && ToBytes(f.kind, 2) == s[4..6]
    requires f.tag == s[6..38] && ToBytes(Unsigned(f.result), 4) == s[38..42] && f.data == s[42..n]
    ensures Encoded(f) == s[..n]
  {
    Joined(s, n);
  }

  lemma Canonical(s: seq<byte>, k: nat)
    requires |s| == k && (k == 2 || k == 4)
    ensures ToBytes(FromBytes(s), k) == s && FromBytes(s) < (if k == 2 then 0x1_0000 else 0x1_0000_0000)
  {
    PowValues();
    WriteBack(s);
  }

  lemma Joined(s: seq<byte>, n: nat)
    requires 42 <= n <= |s|
    ensures s[..4] + s[4..6] + s[6..38] + s[38..42] + s[42..n] == s[..n]
  {
    assert s[..4] + s[4..6] == s[..6];
    assert s[..6] + s[6..38] == s[..38];
    assert s[..38] + s[38..42] == s[..42];
    assert s[..42] + s[42..n] == s[..n];
  }

  /** More bytes never change a verdict that did not ask for more. */
  lemma Settled(s: seq<byte>, t: seq<byte>)
    requires Decoded(s) != More
    ensures Decoded(s + t) == Decoded(s)
  {
    assert (s + t)[..4] == s[..4];
    if Decoded(s).Got? {
      var n := Length(s);
      assert (s + t)[4..6] == s[4..6] && (s + t)[6..38] == s[6..38];
      assert (s + t)[38..42] == s[38..42] && (s + t)[42..n] == s[42..n];
    }
  }

  /** A beginning of a frame that is not all of it asks for more. */
  lemma PartAsksForMore(f: Frame, k: nat)
    requires Sendable(f) && k < |Encoded(f)|
    ensures Decoded(Encoded(f)[..k]) == More
  {
    RoundTrip(f, []);
    var s := Encoded(f);
    assert s + [] == s;
    if k >= HEADER_LENGTH { assert s[..k][..4] == s[..4]; }
  }

  // ----- The session -----

  datatype Session = Session(delivered: seq<Frame>, buffer: seq<byte>, open: bool)

  /** The loop of onRead: cut off frames while there are any. */
  function Drained(x: Session): Session
    decreases |x.buffer|
  {
    match Decoded(x.buffer)
    case Got(frame, length) => Drained(Session(x.delivered + [frame], x.buffer[length..], x.open))
    case More => x
    case _ => x.(open := false)
  }

  /** One read; after a disconnect there are no more. */
  function Read(x: Session, chunk: seq<byte>): Session {
    if x.open then Drained(x.(buffer := x.buffer + chunk)) else x
  }

  function Reads(x: Session, chunks: seq<seq<byte>>): Session {
    if chunks == [] then x else Read(Reads(x, chunks[..|chunks| - 1]), chunks[|chunks| - 1])
  }

  function Concat(chunks: seq<seq<byte>>): seq<byte> {
    if chunks == [] then [] else Concat(chunks[..|chunks| - 1]) + chunks[|chunks| - 1]
  }

  function Stream(fs: seq<Frame>): seq<byte> {
    if fs == [] then [] else Encoded(fs[0]) + Stream(fs[1..])
  }

  /** Draining now and again after more bytes is draining once after them. */
  lemma {:induction false} DrainTwice(x: Session, t: seq<byte>)
    requires Drained(x).open
    ensures Drained(x.(buffer := x.buffer + t)) == Drained(Drained(x).(buffer := Drained(x).buffer + t))
    decreases |x.buffer|
  {
    match Decoded(x.buffer)
    case Got(frame, length) =>
      Settled(x.buffer, t);
      var y := Session(x.delivered + [frame], x.buffer[length..], x.open);
      assert (x.buffer + t)[length..] == y.buffer + t;
      DrainTwice(y, t);
    case More =>
    case _ =>
  }

  /** A stream that has broken delivers the same and stays broken, whatever follows. */
  lemma {:induction false} BrokenStays(x: Session, t: seq<byte>)
    requires x.open && !Drained(x).open
    ensures var y := Drained(x.(buffer := x.buffer + t));
            y.delivered == Drained(x).delivered && !y.open && y.buffer == Drained(x).buffer + t
    decreases |x.buffer|
  {
    match Decoded(x.buffer)
    case Got(frame, length) =>
      Settled(x.buffer, t);
      var y := Session(x.delivered + [frame], x.buffer[length..], x.open);
      assert (x.buffer + t)[length..] == y.buffer + t;
      BrokenStays(y, t);
    case More =>
    case _ => Settled(x.buffer, t);
  }

  /** How the bytes were split over reads does not matter, for any bytes at all. */
  lemma {:induction false} AnySplit(chunks: seq<seq<byte>>)
    ensures var all, x := Drained(Session([], Concat(chunks), true)), Reads(Session([], [], true), chunks);
            x.delivered == all.delivered && x.open == all.open && (all.open ==> x.buffer == all.buffer)
    decreases |chunks|
  {
    if chunks == [] {
    } else {
      var init, last := chunks[..|chunks| - 1], chunks[|chunks| - 1];
      var start := Session([], Concat(init), true);
      AnySplit(init);
      if Drained(start).open {
        DrainTwice(start, last);
      } else {
        BrokenStays(start, last);
      }
    }
  }

  /** A stream of frames and an unfinished one drains to exactly the frames and the unfinished bytes. */
  lemma {:induction false} DrainStream(fs: seq<Frame>, tail: seq<byte>, sofar: seq<Frame>)
    requires (forall i :: 0 <= i < |fs| ==> Sendable(fs[i])) && Decoded(tail) == More
    ensures Drained(Session(sofar, Stream(fs) + tail, true)) == Session(sofar + fs, tail, true)
    decreases |fs|
  {
    if fs == [] {
      assert [] + tail == tail && sofar + fs == sofar;
    } else {
      var first, rest := Encoded(fs[0]), Stream(fs[1..]) + tail;
      RoundTrip(fs[0], rest);
      Assoc(first, Stream(fs[1..]), tail);
      AfterFirst(first, rest);
      DrainStream(fs[1..], tail, sofar + [fs[0]]);
      FirstThenRest(sofar, fs);
    }
  }

  lemma AfterFirst(first: seq<byte>, rest: seq<byte>)
    ensures (first + rest)[|first|..] == rest
  {
  }

  lemma FirstThenRest(sofar: seq<Frame>, fs: seq<Frame>)
    requires fs != []
    ensures sofar + [fs[0]] + fs[1..] == sofar + fs
  {
  }

  /** Whatever the reads, exactly the frames come out, in order, and the buffer holds only the beginning of the next. */
  lemma FramesArrive(fs: seq<Frame>, next: Frame, k: nat, chunks: seq<seq<byte>>)
    requires (forall i :: 0 <= i < |fs| ==> Sendable(fs[i])) && Sendable(next) && k < |Encoded(next)|
    requires Concat(chunks) == Stream(fs) + Encoded(next)[..k]
    ensures Reads(Session([], [], true), chunks) == Session(fs, Encoded(next)[..k], true)
  {
    PartAsksForMore(next, k);
    DrainStream(fs, Encoded(next)[..k], []);
    AnySplit(chunks);
    assert [] + fs == fs;
  }
}
