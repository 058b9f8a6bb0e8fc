/**
 ContractABI as it runs (libcvcore/ABI.h): arguments fill fixed and dynamic items, whose offsets are patched in
 before everything is joined; reading walks the head word by word.
 */
module ContractAbi {
  import opened BigEndian
  import opened Abi

  datatype DynamicItem = DynamicItem(data: seq<byte>, offset: nat)

  class ContractABI {
    var fixedItems: seq<seq<byte>>
    var dynamicItems: seq<DynamicItem>
    var data: seq<byte>
    var decodeOffset: nat

    constructor ()
    {
      fixedItems, dynamicItems, data, decodeOffset := [], [], [], 0;
    }

    /** A string leaves a zero word in the head for now. */
    method Serialise(x: Arg)
      modifies this`fixedItems, this`dynamicItems
      ensures fixedItems == old(fixedItems) + [HeadFor(x, 0)]
      ensures dynamicItems ==
                if x.Str? then old(dynamicItems) + [DynamicItem(Tail(x), |old(fixedItems)|)] else old(dynamicItems)
    {
      match x
      case U256(v) => fixedItems := fixedItems + [Word(v)];
      case U160(a) => fixedItems := fixedItems + [Zeros(12) + ToBytes(a, 20)];
      case Str(s) =>
        var ret := Word(|s|) + s + Zeros((|s| + 31) / 32 * 32 - |s|);
        var item := DynamicItem(ret, |fixedItems|);
        fixedItems := fixedItems + [Word(0)];
        dynamicItems := dynamicItems + [item];
    }

    method AbiIn(selector: seq<byte>, args: seq<Arg>) returns (out: seq<byte>)
      modifies this`fixedItems, this`dynamicItems
      ensures out == selector + Encoded(args)
    {
      Fill(args);
      PatchOffsets(args);
      HeadsDone(args, fixedItems);
      var fixed := Joined(fixedItems);
      var dynamic := JoinedData(args, dynamicItems);
      Assoc(selector, fixed, dynamic);
      out := selector + fixed + dynamic;
    }

    /** abiInAux: one item after the other. */
    method Fill(args: seq<Arg>)
      modifies this`fixedItems, this`dynamicItems
      ensures |fixedItems| == |args| && (forall j :: 0 <= j < |args| ==> fixedItems[j] == HeadFor(args[j], 0))
      ensures Lists(args, dynamicItems, |args|)
    {
      fixedItems, dynamicItems := [], [];
      var i := 0;
      while i < |args|
        invariant 0 <= i <= |args| && |fixedItems| == i && Lists(args, dynamicItems, i)
        invariant forall j :: 0 <= j < i ==> fixedItems[j] == HeadFor(args[j], 0)
      {
        if args[i].Str? {
          ListsMore(args, dynamicItems, i, DynamicItem(Tail(args[i]), i));
        } else {
          ListsSame(args, dynamicItems, i);
        }
        Serialise(args[i]);
        i := i + 1;
      }
    }

    /** Each string's head word becomes the running offset of its tail. */
    method PatchOffsets(ghost args: seq<Arg>)
      requires |fixedItems| == |args| && (forall j :: 0 <= j < |args| ==> fixedItems[j] == HeadFor(args[j], 0))
      requires Lists(args, dynamicItems, |args|)
      modifies this`fixedItems
      ensures |fixedItems| == |args| && forall j :: 0 <= j < |args| ==> fixedItems[j] == Patched(args, |args|, j)
    {
      var offset: nat := |fixedItems| * 32;
      var k := 0;
      FirstItem(args, dynamicItems, fixedItems);
      while k < |dynamicItems|
        invariant 0 <= k <= |dynamicItems| && Lists(args, dynamicItems, |args|)
        invariant PatchedTo(args, dynamicItems, fixedItems, k, offset)
      {
        offset := PatchItem(args, k, offset);
        k := k + 1;
      }
    }

    method PatchItem(ghost args: seq<Arg>, k: nat, offset: nat) returns (next: nat)
      requires k < |dynamicItems| && Lists(args, dynamicItems, |args|)
      requires PatchedTo(args, dynamicItems, fixedItems, k, offset)
      modifies this`fixedItems
      ensures PatchedTo(args, dynamicItems, fixedItems, k + 1, next)
    {
      var item := dynamicItems[k];
      NextHead(args, dynamicItems, k);
      assert offset + |item.data| == Offset(args, Next(args, dynamicItems, k + 1))
          by { NextTail(args, dynamicItems, k); }
      fixedItems := fixedItems[item.offset := Word(offset % 0x1_0000_0000)];
      next := offset + |item.data|;
    }

    method Deserialise(kind: Kind) returns (x: Arg)
      ensures x == ReadArg(data, decodeOffset, kind)
    {
      match kind
      case KU256 => x := U256(FromBytes(Cropped(data, decodeOffset * 32, 32)));
      case KU160 => x := U160(FromBytes(Cropped(data, decodeOffset * 32 + 12, 20)));
      case KStr =>
        var offset := FromBytes(Cropped(data, decodeOffset * 32, 32));
        var len := FromBytes(Cropped(data, offset, 32));
        x := Str(Cropped(data, offset + 32, len));
    }

    method AbiOut(bytes: seq<byte>, kinds: seq<Kind>) returns (args: seq<Arg>)
      modifies this`data, this`decodeOffset
      ensures args == Decoded(bytes, kinds)
    {
      data, decodeOffset, args := bytes, 0, [];
      while decodeOffset < |kinds|
        invariant data == bytes && decodeOffset <= |kinds| && |args| == decodeOffset
        invariant forall i :: 0 <= i < decodeOffset ==> args[i] == ReadArg(bytes, i, kinds[i])
      {
        var x := Deserialise(kinds[decodeOffset]);
        args := args + [x];
        decodeOffset := decodeOffset + 1;
      }
    }
  }

  /** The dynamic items are the strings among the first `n` arguments, in order. */
  ghost predicate Lists(args: seq<Arg>, items: seq<DynamicItem>, n: nat)
    requires n <= |args|
  {
    && (forall k :: 0 <= k < |items| ==> ItemOk(args, items[k], n))
    && (forall k, l {:trigger Earlier(items, k, l)} :: 0 <= k < l < |items| ==> Earlier(items, k, l))
    && forall j :: 0 <= j < n && args[j].Str? ==> Listed(items, j)
  }

  ghost predicate Earlier(items: seq<DynamicItem>, k: nat, l: nat)
    requires k < |items| && l < |items|
  {
    items[k].offset < items[l].offset
  }

  ghost predicate ItemOk(args: seq<Arg>, item: DynamicItem, n: nat)
    requires n <= |args|
  {
    item.offset < n && args[item.offset].Str? && item.data == Tail(args[item.offset])
  }

  ghost predicate Listed(items: seq<DynamicItem>, j: nat) { exists k :: 0 <= k < |items| && items[k].offset == j }

  /** The argument of item `k`, or the end. */
  ghost function Next(args: seq<Arg>, items: seq<DynamicItem>, k: nat): (j: nat)
    requires k <= |items| && Lists(args, items, |args|)
    ensures j <= |args|
  {
    if k < |items| then assert ItemOk(args, items[k], |args|); items[k].offset else |args|
  }

  /** The head while the strings below `bound` have been patched. */
  ghost function Patched(args: seq<Arg>, bound: nat, j: nat): seq<byte>
    requires j < |args|
  {
    if j < bound then Head(args, j) else HeadFor(args[j], 0)
  }

  /** Items before `k` are patched, and `offset` is where the tail of item `k` starts. */
  ghost predicate PatchedTo(args: seq<Arg>, items: seq<DynamicItem>, fixed: seq<seq<byte>>, k: nat, offset: nat)
    requires k <= |items| && Lists(args, items, |args|)
  {
    var bound := Next(args, items, k);
    && |fixed| == |args| && offset == Offset(args, bound)
    && forall j :: 0 <= j < |args| ==> fixed[j] == Patched(args, bound, j)
  }

  lemma ListsSame(args: seq<Arg>, items: seq<DynamicItem>, n: nat)
    requires n < |args| && Lists(args, items, n) && !args[n].Str?
    ensures Lists(args, items, n + 1)
  {
    forall k | 0 <= k < |items| ensures ItemOk(args, items[k], n + 1) { assert ItemOk(args, items[k], n); }
  }

  lemma ListsMore(args: seq<Arg>, items: seq<DynamicItem>, n: nat, item: DynamicItem)
    requires n < |args| && Lists(args, items, n) && args[n].Str? && item == DynamicItem(Tail(args[n]), n)
    ensures Lists(args, items + [item], n + 1)
  {
    var more := items + [item];
    forall k | 0 <= k < |more| ensures ItemOk(args, more[k], n + 1) {
      if k < |items| { assert ItemOk(args, items[k], n); }
    }
    forall k, l | 0 <= k < l < |more| ensures Earlier(more, k, l) {
      assert ItemOk(args, items[k], n);
      if l < |items| { assert Earlier(items, k, l); }
    }
    forall j | 0 <= j < n + 1 && args[j].Str? ensures Listed(more, j) {
      if j < n {
        assert Listed(items, j);
        var k :| 0 <= k < |items| && items[k].offset == j;
        assert more[k].offset == j;
      } else {
        assert more[|items|].offset == j;
      }
    }
  }

  lemma {:induction false} EmptyPieces(pieces: seq<seq<byte>>, i: nat, j: nat)
    requires i <= j <= |pieces| && forall k :: i <= k < j ==> pieces[k] == []
    ensures Cat(pieces, i) == Cat(pieces, j)
    decreases j
  {
    if i < j { EmptyPieces(pieces, i, j - 1); }
  }

  lemma SkipEmpty(args: seq<Arg>, i: nat, j: nat)
    requires i <= j <= |args| && forall k :: i <= k < j ==> !args[k].Str?
    ensures Cat(TailItems(args), i) == Cat(TailItems(args), j)
  {
    EmptyPieces(TailItems(args), i, j);
  }

  lemma HeadsDone(args: seq<Arg>, fixed: seq<seq<byte>>)
    requires |fixed| == |args| && forall j :: 0 <= j < |args| ==> fixed[j] == Patched(args, |args|, j)
    ensures fixed == HeadItems(args)
  {
  }

  /** No string stands before the first item. */
  lemma FirstItem(args: seq<Arg>, items: seq<DynamicItem>, fixed: seq<seq<byte>>)
    requires Lists(args, items, |args|) && |fixed| == |args|
    requires forall j :: 0 <= j < |args| ==> fixed[j] == HeadFor(args[j], 0)
    ensures PatchedTo(args, items, fixed, 0, 32 * |args|)
  {
    assert Cat(TailItems(args), Next(args, items, 0)) == [] by { FirstTail(args, items); }
    var m := Next(args, items, 0);
    forall j | 0 <= j < m ensures !args[j].Str? {
      if args[j].Str? { NotBetween(args, items, 0, j); }
    }
  }

  lemma FirstTail(args: seq<Arg>, items: seq<DynamicItem>)
    requires Lists(args, items, |args|)
    ensures Cat(TailItems(args), Next(args, items, 0)) == []
  {
    var m := Next(args, items, 0);
    forall j | 0 <= j < m ensures !args[j].Str? {
      if args[j].Str? { NotBetween(args, items, 0, j); }
    }
    SkipEmpty(args, 0, m);
  }

  /** A string is the argument of an item at or after `k`, or comes before item `k`'s predecessor's end. */
  lemma NotBetween(args: seq<Arg>, items: seq<DynamicItem>, k: nat, j: nat)
    requires Lists(args, items, |args|) && k <= |items| && j < |args| && args[j].Str? && j < Next(args, items, k)
    ensures k > 0 && j <= items[k - 1].offset
  {
    assert Listed(items, j);
    forall a, b | 0 <= a < b < |items| ensures items[a].offset < items[b].offset { assert Earlier(items, a, b); }
    Found(items, k, j);
  }

  lemma Found(items: seq<DynamicItem>, k: nat, j: nat)
    requires forall a, b :: 0 <= a < b < |items| ==> items[a].offset < items[b].offset
    requires Listed(items, j) && k <= |items| && (k < |items| ==> j < items[k].offset)
    ensures k > 0 && j <= items[k - 1].offset
  {
    var l :| 0 <= l < |items| && items[l].offset == j;
  }

  /** From one item's argument to the next there are only numbers. */
  lemma Gap(args: seq<Arg>, items: seq<DynamicItem>, k: nat)
    requires Lists(args, items, |args|) && k < |items|
    ensures var m, next := items[k].offset, Next(args, items, k + 1);
            && m < next && args[m].Str? && items[k].data == Tail(args[m])
            && forall j :: m < j < next ==> !args[j].Str?
  {
    var m, next := items[k].offset, Next(args, items, k + 1);
    assert ItemOk(args, items[k], |args|);
    if k + 1 < |items| { assert ItemOk(args, items[k + 1], |args|) && Earlier(items, k, k + 1); }
    forall j | m < j < next ensures !args[j].Str? {
      if args[j].Str? { NotBetween(args, items, k + 1, j); }
    }
  }

  lemma NextTail(args: seq<Arg>, items: seq<DynamicItem>, k: nat)
    requires Lists(args, items, |args|) && k < |items|
    ensures var m, next := items[k].offset, Next(args, items, k + 1);
            m < |args| && Cat(TailItems(args), next) == Cat(TailItems(args), m) + items[k].data
  {
    var m, next := items[k].offset, Next(args, items, k + 1);
    Gap(args, items, k);
    assert Cat(TailItems(args), next) == Cat(TailItems(args), m + 1) by { SkipEmpty(args, m + 1, next); }
    assert Cat(TailItems(args), m + 1) == Cat(TailItems(args), m) + TailItems(args)[m]
        by { CatNext(TailItems(args), m); }
    assert TailItems(args)[m] == Tail(args[m]);
  }

  lemma NextHead(args: seq<Arg>, items: seq<DynamicItem>, k: nat)
    requires Lists(args, items, |args|) && k < |items|
    ensures var m, next := items[k].offset, Next(args, items, k + 1);
            m < |args| && PatchedStep(args, m, next)
  {
    Gap(args, items, k);
    PatchOne(args, items[k].offset, Next(args, items, k + 1));
  }

  lemma CatNext(pieces: seq<seq<byte>>, n: nat)
    requires n < |pieces|
    ensures Cat(pieces, n + 1) == Cat(pieces, n) + pieces[n]
  {
  }

  /** Patching the string at `m` is all it takes to get to `next`. */
  ghost predicate PatchedStep(args: seq<Arg>, m: nat, next: nat)
    requires m < |args|
  {
    && Patched(args, next, m) == Word(Offset(args, m) % 0x1_0000_0000)
    && forall j :: 0 <= j < |args| && j != m ==> Patched(args, next, j) == Patched(args, m, j)
  }

  lemma PatchOne(args: seq<Arg>, m: nat, next: nat)
    requires m < next <= |args| && args[m].Str? && forall j :: m < j < next ==> !args[j].Str?
    ensures PatchedStep(args, m, next)
  {
  }

  method Joined(items: seq<seq<byte>>) returns (out: seq<byte>)
    ensures out == Cat(items, |items|)
  {
    out := [];
    var i := 0;
    while i < |items|
      invariant 0 <= i <= |items| && out == Cat(items, i)
    {
      out := out + items[i];
      i := i + 1;
    }
  }

  method JoinedData(ghost args: seq<Arg>, items: seq<DynamicItem>) returns (out: seq<byte>)
    requires Lists(args, items, |args|)
    ensures out == Cat(TailItems(args), |args|)
  {
    out := [];
    var k := 0;
    FirstTail(args, items);
    while k < |items|
      invariant 0 <= k <= |items| && out == Cat(TailItems(args), Next(args, items, k))
    {
      NextTail(args, items, k);
      out := out + items[k].data;
      k := k + 1;
    }
  }
}
