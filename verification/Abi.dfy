/**
 Head and tail encoding of contract arguments (ContractABI in libcvcore/ABI.h): numbers sit in the head, a string
 leaves its offset there and its length and padded bytes in the tail.
 */
module Abi {
  import opened BigEndian

  datatype Arg = U256(v: nat) | U160(a: nat) | Str(s: seq<byte>)

  datatype Kind = KU256 | KU160 | KStr

  predicate Wide(x: Arg) {
    match x
    case U256(v) => v < Pow(32)
    case U160(a) => a < Pow(20)
    case Str(s) => |s| < Pow(32)
  }

  function KindOf(x: Arg): Kind {
    match x
    case U256(_) => KU256
    case U160(_) => KU160
    case Str(_) => KStr
  }

  function Zeros(n: nat): (s: seq<byte>)
    ensures |s| == n
  {
    seq(n, _ => 0)
  }

  function Word(v: nat): seq<byte> { ToBytes(v, 32) }

  /** A string's part of the tail: its length and its bytes filled up to whole words. */
  function Tail(x: Arg): (t: seq<byte>)
    ensures |t| == if x.Str? then 32 + (|x.s| + 31) / 32 * 32 else 0
  {
    match x
    case Str(s) => Word(|s|) + s + Zeros((|s| + 31) / 32 * 32 - |s|)
    case _ => []
  }

  /** The first `n` pieces one after the other. */
  function Cat(pieces: seq<seq<byte>>, n: nat): seq<byte>
    requires n <= |pieces|
  {
    if n == 0 then [] else Cat(pieces, n - 1) + pieces[n - 1]
  }

  function TailItems(args: seq<Arg>): (t: seq<seq<byte>>)
    ensures |t| == |args|
  {
    seq(|args|, i requires 0 <= i < |args| => Tail(args[i]))
  }

  /** Where the tail of argument `i` starts. */
  function Offset(args: seq<Arg>, i: nat): nat
    requires i <= |args|
  {
    32 * |args| + |Cat(TailItems(args), i)|
  }

  /** An offset is turned into a hash through a 32-bit number, as a size_t argument selects that constructor. */
  function HeadFor(x: Arg, offset: nat): (w: seq<byte>)
    ensures |w| == 32
  {
    match x
    case U256(v) => Word(v)
    case U160(a) => Zeros(12) + ToBytes(a, 20)
    case Str(_) => Word(offset % 0x1_0000_0000)
  }

  function Head(args: seq<Arg>, i: nat): (w: seq<byte>)
    requires i < |args|
    ensures |w| == 32
  {
    HeadFor(args[i], Offset(args, i))
  }

  function HeadItems(args: seq<Arg>): (h: seq<seq<byte>>)
    ensures |h| == |args|
  {
    seq(|args|, i requires 0 <= i < |args| => Head(args, i))
  }

  /** abiIn without its four-byte selector. */
  function Encoded(args: seq<Arg>): seq<byte> { Cat(HeadItems(args), |args|) + Cat(TailItems(args), |args|) }

  // ----- Reading -----

  /** A range of the data, empty when it does not lie inside. */
  function Cropped(data: seq<byte>, begin: nat, count: nat): seq<byte> {
    if begin + count <= |data| then data[begin..begin + count] else []
  }

  function ReadArg(data: seq<byte>, i: nat, kind: Kind): Arg {
    match kind
    case KU256 => U256(FromBytes(Cropped(data, 32 * i, 32)))
    case KU160 => U160(FromBytes(Cropped(data, 32 * i + 12, 20)))
    case KStr =>
      var offset := FromBytes(Cropped(data, 32 * i, 32));
      var len := FromBytes(Cropped(data, offset, 32));
      Str(Cropped(data, offset + 32, len))
  }

  function Decoded(data: seq<byte>, kinds: seq<Kind>): seq<Arg> {
    seq(|kinds|, i requires 0 <= i < |kinds| => ReadArg(data, i, kinds[i]))
  }

  function Kinds(args: seq<Arg>): seq<Kind> { seq(|args|, i requires 0 <= i < |args| => KindOf(args[i])) }

  /** No string starts at or beyond 2^32. */
  ghost predicate Fits(args: seq<Arg>) {
    forall i :: 0 <= i < |args| && args[i].Str? ==> Offset(args, i) < 0x1_0000_0000
  }

  // ----- Where things are -----

  /** `t` stands in `data` from `at` on. */
  predicate Holds(data: seq<byte>, at: nat, t: seq<byte>) {
    at + |t| <= |data| && forall k :: 0 <= k < |t| ==> data[at + k] == t[k]
  }

  lemma HoldsMore(a: seq<byte>, b: seq<byte>, at: nat, t: seq<byte>)
    requires Holds(a, at, t)
    ensures Holds(a + b, at, t)
  {
  }

  lemma HoldsAfter(a: seq<byte>, b: seq<byte>, at: nat, t: seq<byte>)
    requires Holds(b, at, t)
    ensures Holds(a + b, |a| + at, t)
  {
  }

  lemma HoldsParts(data: seq<byte>, at: nat, pre: seq<byte>, mid: seq<byte>)
    requires Holds(data, at, pre + mid)
    ensures Holds(data, at, pre) && Holds(data, at + |pre|, mid)
  {
    assert forall k :: 0 <= k < |pre| ==> (pre + mid)[k] == pre[k];
    assert forall k :: 0 <= k < |mid| ==> (pre + mid)[|pre| + k] == mid[k];
  }

  lemma HoldsRead(data: seq<byte>, at: nat, t: seq<byte>)
    requires Holds(data, at, t)
    ensures Cropped(data, at, |t|) == t
  {
  }

  lemma {:induction false} CatAt(pieces: seq<seq<byte>>, n: nat, i: nat)
    requires i < n <= |pieces|
    ensures Holds(Cat(pieces, n), |Cat(pieces, i)|, pieces[i])
  {
    if i < n - 1 {
      CatAt(pieces, n - 1, i);
      HoldsMore(Cat(pieces, n - 1), pieces[n - 1], |Cat(pieces, i)|, pieces[i]);
    } else {
      HoldsAfter(Cat(pieces, n - 1), pieces[i], 0, pieces[i]);
    }
  }

  lemma {:induction false} WordsLength(pieces: seq<seq<byte>>, n: nat)
    requires n <= |pieces| && forall i :: 0 <= i < n ==> |pieces[i]| == 32
    ensures |Cat(pieces, n)| == 32 * n
  {
    if n > 0 { WordsLength(pieces, n - 1); }
  }

  /** The encoding has every head and every tail where the layout says. */
  lemma Layout(args: seq<Arg>, i: nat)
    requires i < |args|
    ensures Holds(Encoded(args), 32 * i, Head(args, i)) && Holds(Encoded(args), Offset(args, i), Tail(args[i]))
  {
    var heads, tails := HeadItems(args), TailItems(args);
    assert heads[i] == Head(args, i) && tails[i] == Tail(args[i]);
    Blocks(heads, tails, i);
  }

  /**
   The encoding word by word: numbers and addresses right-aligned in the
   head, a string's length, bytes and zeros in the tail.
   */
  lemma WireFormat(args: seq<Arg>, i: nat)
    requires i < |args|
    ensures var data, o := Encoded(args), Offset(args, i);
            && Holds(data, 32 * i,
                     match args[i]
                     case U256(v) => Word(v)
                     case U160(a) => seq(12, _ => 0) + ToBytes(a, 20)
                     case Str(_) => Word(o % 0x1_0000_0000))
            && (args[i].Str? ==>
                  var s := args[i].s;
                  Holds(data, o, Word(|s|)) && Holds(data, o + 32, s)
                  && forall k: nat :: o + 32 + |s| <= k < Offset(args, i + 1) ==> k < |data| && data[k] == 0)
  {
    Layout(args, i);
    if args[i].Str? {
      TailsFollow(args, i);
      StringWire(Encoded(args), Offset(args, i), args[i].s);
    }
  }

  lemma StringWire(data: seq<byte>, o: nat, s: seq<byte>)
    requires Holds(data, o, Tail(Str(s)))
    ensures Holds(data, o, Word(|s|)) && Holds(data, o + 32, s)
    ensures forall k: nat :: o + 32 + |s| <= k < o + 32 + (|s| + 31) / 32 * 32 ==> k < |data| && data[k] == 0
  {
    var pad := Zeros((|s| + 31) / 32 * 32 - |s|);
    TailParts(data, o, s);
    HoldsParts(data, o, Word(|s|) + s, pad);
    PadRead(data, o + 32 + |s|, pad);
  }

  /** The bytes of a word, the most significant first. */
  lemma WordMeans(v: nat, i: nat)
    requires i < 32
    ensures Word(v)[i] == v / Pow(31 - i) % 256
  {
    Digits(v, 32, i);
  }

  lemma PadRead(data: seq<byte>, at: nat, pad: seq<byte>)
    requires Holds(data, at, pad) && forall k :: 0 <= k < |pad| ==> pad[k] == 0
    ensures forall k: nat :: at <= k < at + |pad| ==> k < |data| && data[k] == 0
  {
    forall k: nat | at <= k < at + |pad| ensures data[k] == 0 { assert data[at + (k - at)] == pad[k - at]; }
  }

  /** Tails start behind the heads and follow each other; a string takes a word and as many as its bytes need. */
  lemma TailsFollow(args: seq<Arg>, i: nat)
    requires i < |args|
    ensures Offset(args, 0) == 32 * |args|
    ensures Offset(args, i + 1) == Offset(args, i) + match args[i]
                                                    case Str(s) => 32 + (|s| + 31) / 32 * 32
                                                    case _ => 0
  {
    assert Cat(TailItems(args), i + 1) == Cat(TailItems(args), i) + TailItems(args)[i];
  }

  lemma Blocks(heads: seq<seq<byte>>, tails: seq<seq<byte>>, i: nat)
    requires |heads| == |tails| && i < |heads| && forall j :: 0 <= j < |heads| ==> |heads[j]| == 32
    ensures var n, all := |heads|, Cat(heads, |heads|) + Cat(tails, |heads|);
            Holds(all, 32 * i, heads[i]) && Holds(all, 32 * n + |Cat(tails, i)|, tails[i])
  {
    var n := |heads|;
    var h, t := Cat(heads, n), Cat(tails, n);
    HeadBlock(heads, i);
    HoldsMore(h, t, 32 * i, heads[i]);
    CatAt(tails, n, i);
    HoldsAfter(h, t, |Cat(tails, i)|, tails[i]);
  }

  lemma HeadBlock(heads: seq<seq<byte>>, i: nat)
    requires i < |heads| && forall j :: 0 <= j < |heads| ==> |heads[j]| == 32
    ensures |Cat(heads, |heads|)| == 32 * |heads| && Holds(Cat(heads, |heads|), 32 * i, heads[i])
  {
    WordsLength(heads, i);
    WordsLength(heads, |heads|);
    CatAt(heads, |heads|, i);
  }

  lemma WordBack(data: seq<byte>, at: nat, v: nat)
    requires Holds(data, at, Word(v)) && v < Pow(32)
    ensures FromBytes(Cropped(data, at, 32)) == v
  {
    HoldsRead(data, at, Word(v));
    Exact(v, 32);
  }

  lemma AddressBack(data: seq<byte>, at: nat, a: nat)
    requires Holds(data, at, Zeros(12) + ToBytes(a, 20)) && a < Pow(20)
    ensures FromBytes(Cropped(data, at + 12, 20)) == a
  {
    HoldsParts(data, at, Zeros(12), ToBytes(a, 20));
    HoldsRead(data, at + 12, ToBytes(a, 20));
    Exact(a, 20);
  }

  lemma TailParts(data: seq<byte>, o: nat, s: seq<byte>)
    requires Holds(data, o, Tail(Str(s)))
    ensures Holds(data, o, Word(|s|)) && Holds(data, o + 32, s)
  {
    HoldsParts(data, o, Word(|s|) + s, Zeros((|s| + 31) / 32 * 32 - |s|));
    HoldsParts(data, o, Word(|s|), s);
  }

  /** What stands at a string's offset: its length, and then it. */
  lemma TailBack(data: seq<byte>, o: nat, s: seq<byte>)
    requires Holds(data, o, Tail(Str(s))) && |s| < Pow(32)
    ensures FromBytes(Cropped(data, o, 32)) == |s| && Cropped(data, o + 32, |s|) == s
  {
    TailParts(data, o, s);
    HoldsRead(data, o + 32, s);
    WordBack(data, o, |s|);
  }

  /** The reader needs no more of the data than an argument's own head and tail. */
  lemma ArgBack(args: seq<Arg>, i: nat)
    requires i < |args| && Wide(args[i]) && (args[i].Str? ==> Offset(args, i) < 0x1_0000_0000)
    ensures ReadArg(Encoded(args), i, KindOf(args[i])) == args[i]
  {
    match args[i]
    case U256(v) =>
      assert Holds(Encoded(args), 32 * i, Word(v)) by { Layout(args, i); }
      U256Back(Encoded(args), i, v);
    case U160(a) =>
      assert Holds(Encoded(args), 32 * i, Zeros(12) + ToBytes(a, 20)) by { Layout(args, i); }
      U160Back(Encoded(args), i, a);
    case Str(s) =>
      StringPlaced(args, i);
      StringBack(Encoded(args), i, Offset(args, i), s);
  }

  lemma StringPlaced(args: seq<Arg>, i: nat)
    requires i < |args| && args[i].Str? && Offset(args, i) < 0x1_0000_0000
    ensures Holds(Encoded(args), 32 * i, Word(Offset(args, i)))
    ensures Holds(Encoded(args), Offset(args, i), Tail(Str(args[i].s)))
  {
    assert Head(args, i) == Word(Offset(args, i)) by { NearHead(args[i], Offset(args, i)); }
    Layout(args, i);
  }

  lemma NearHead(x: Arg, o: nat)
    requires x.Str? && o < 0x1_0000_0000
    ensures HeadFor(x, o) == Word(o)
  {
    assert o % 0x1_0000_0000 == o;
  }

  lemma U256Back(data: seq<byte>, i: nat, v: nat)
    requires Holds(data, 32 * i, Word(v)) && v < Pow(32)
    ensures ReadArg(data, i, KU256) == U256(v)
  {
    WordBack(data, 32 * i, v);
  }

  lemma U160Back(data: seq<byte>, i: nat, a: nat)
    requires Holds(data, 32 * i, Zeros(12) + ToBytes(a, 20)) && a < Pow(20)
    ensures ReadArg(data, i, KU160) == U160(a)
  {
    AddressBack(data, 32 * i, a);
  }

  lemma StringBack(data: seq<byte>, i: nat, o: nat, s: seq<byte>)
    requires o < 0x1_0000_0000 && |s| < Pow(32) && Holds(data, 32 * i, Word(o)) && Holds(data, o, Tail(Str(s)))
    ensures ReadArg(data, i, KStr) == Str(s)
  {
    assert FromBytes(Cropped(data, 32 * i, 32)) == o by {
      PowValues();
      WordBack(data, 32 * i, o);
    }
    TailBack(data, o, s);
  }

  /** abiOut undoes abiIn for every list of arguments whose strings all start below 2^32. */
  lemma RoundTrip(args: seq<Arg>)
    requires Fits(args) && forall i :: 0 <= i < |args| ==> Wide(args[i])
    ensures Decoded(Encoded(args), Kinds(args)) == args
  {
    forall i | 0 <= i < |args| ensures ReadArg(Encoded(args), i, KindOf(args[i])) == args[i] {
      ArgBack(args, i);
    }
  }

  /** The head of a string names the place of its tail if and only if that is below 2^32. */
  lemma HeadPointsIff(args: seq<Arg>, i: nat)
    requires i < |args| && args[i].Str?
    ensures FromBytes(Cropped(Encoded(args), 32 * i, 32)) == Offset(args, i) <==> Offset(args, i) < 0x1_0000_0000
  {
    Layout(args, i);
    PointsIff(Encoded(args), 32 * i, Offset(args, i));
  }

  lemma PointsIff(data: seq<byte>, at: nat, o: nat)
    requires Holds(data, at, Word(o % 0x1_0000_0000))
    ensures FromBytes(Cropped(data, at, 32)) == o <==> o < 0x1_0000_0000
  {
    PowValues();
    WordBack(data, at, o % 0x1_0000_0000);
  }

  /** A string after one of 2^32 bytes comes back empty: its head points into the first one's zeros. */
  lemma FarStringLost(x: byte)
    ensures var args := [Str(Zeros(0x1_0000_0000)), Str([x])];
            Wide(args[0]) && Wide(args[1]) && ReadArg(Encoded(args), 1, KStr) == Str([])
  {
    var zeros := Zeros(0x1_0000_0000);
    var args := [Str(zeros), Str([x])];
    PowValues();
    FirstTail(args);
    Layout(args, 0);
    Layout(args, 1);
    ZerosRead(Encoded(args), zeros);
  }

  lemma ZerosRead(data: seq<byte>, zeros: seq<byte>)
    requires zeros == Zeros(0x1_0000_0000) && Holds(data, 32, Word(96)) && Holds(data, 64, Tail(Str(zeros)))
    ensures ReadArg(data, 1, KStr) == Str([])
  {
    TailParts(data, 64, zeros);
    assert FromBytes(Cropped(data, 32, 32)) == 96 by {
      PowValues();
      WordBack(data, 32, 96);
    }
    ZerosCropped(data, 96, zeros);
    NoughtBack(32);
  }

  lemma ZerosCropped(data: seq<byte>, at: nat, zeros: seq<byte>)
    requires Holds(data, at, zeros) && |zeros| >= 32 && forall k :: 0 <= k < |zeros| ==> zeros[k] == 0
    ensures Cropped(data, at, 32) == Zeros(32)
  {
    forall k | 0 <= k < 32 ensures Cropped(data, at, 32)[k] == Zeros(32)[k] { assert zeros[k] == 0; }
  }

  lemma FirstTail(args: seq<Arg>)
    requires |args| == 2
    ensures Cat(TailItems(args), 0) == [] && Cat(TailItems(args), 1) == Tail(args[0])
  {
    assert Cat(TailItems(args), 1) == Cat(TailItems(args), 0) + TailItems(args)[0];
  }

  lemma {:induction false} NoughtBack(n: nat)
    ensures FromBytes(Zeros(n)) == 0
  {
    if n > 0 {
      NoughtBack(n - 1);
      assert Zeros(n)[..n - 1] == Zeros(n - 1);
    }
  }
}
