/**
 The block chain's import, reorganisation and rewind (libcv/BlockChain.cpp):
 the head, the number index and the bloom index, changed in place.
 */
module ChainIndex {
  import opened ChainTree

  /** What an import did: refused, kept on a side branch, or changed the canonical chain. */
  datatype Outcome = AlreadyKnown | UnknownParent | Imported(dead: seq<Hash>, live: seq<Hash>)

  predicate Increasing(s: seq<nat>) { forall i, j :: 0 <= i < j < |s| ==> s[i] < s[j] }

  function CeilDiv(n: nat, d: nat): nat
    requires d > 0
  {
    (n + d - 1) / d
  }

  class BlockChain {
    const genesis: Hash
    var details: map<Hash, Detail>
    var index: map<nat, Hash>
    var l0: Level
    var l1: Level
    var head: Hash
    var headNumber: nat

    ghost function T(): Tree
      reads this
    {
      Tree(details, genesis)
    }

    ghost predicate Valid()
      reads this
    {
      Indexed(T(), head, index) && Bloomed(T(), head, l0, l1) && headNumber == details[head].number
    }

    ghost function Canonical(): seq<Hash>
      requires Grown(T()) && head in details
      reads this
    {
      Chain(T(), head)
    }

    constructor (genesis: Hash, difficulty: nat, bloom: Bloom)
      ensures Valid() && this.genesis == head == genesis
    {
      this.genesis := genesis;
      details := map[genesis := Detail(0, 0, difficulty, bloom)];
      index, l0, l1 := map[], map[], map[];
      head, headNumber := genesis, 0;
    }

    /** The route between two known blocks through their deepest common ancestor. */
    method TreeRoute(from: Hash, to: Hash) returns (route: seq<Hash>, common: Hash)
      requires Grown(T()) && from in details && to in details
      ensures route == Route(T(), from, to) && common == Common(T(), from, to)
    {
      ghost var a, b := Chain(T(), from), Chain(T(), to);
      ChainLinked(T(), from);
      ChainLinked(T(), to);
      var ret, f, fn := Descend(from, details[from].number, details[to].number, a);
      var back, u, tn := Descend(to, details[to].number, fn, b);
      ret, back, common, fn := Meet(a, b, ret, back, f, u, fn);
      RouteFound(T(), from, to, ret, fn);
      route := Turned(ret, back, b[fn + 1..]);
    }

    /** The first two loops of treeRoute: the deeper side steps down to the other's height. */
    method Descend(x: Hash, n: nat, floor: nat, ghost c: seq<Hash>) returns (steps: seq<Hash>, y: Hash, k: nat)
      requires Linked(T(), c) && |c| == n + 1 && c[n] == x
      ensures k == (if n > floor then floor else n) && y == c[k] && Downward(steps, c, k + 1)
    {
      steps, y, k := [], x, n;
      while k > floor
        invariant k <= n && (k == n || floor <= k) && y == c[k] && Downward(steps, c, k + 1)
      {
        steps := steps + [y];
        assert Follows(T(), c, k);
        y := details[y].parent;
        k := k - 1;
      }
    }

    /** `back` is appended in reverse. */
    method Turned(ret: seq<Hash>, back: seq<Hash>, ghost up: seq<Hash>) returns (route: seq<Hash>)
      requires |up| == |back| && forall k :: 0 <= k < |up| ==> back[k] == up[|up| - 1 - k]
      ensures route == ret + up
    {
      route := ret;
      var i := |back|;
      while i > 0
        invariant 0 <= i <= |back| && route == ret + up[..|back| - i]
      {
        i := i - 1;
        route := route + [back[i]];
      }
    }

    /** The last loop of treeRoute: both sides step down together until they meet. */
    method Meet(ghost a: seq<Hash>, ghost b: seq<Hash>, ret0: seq<Hash>, back0: seq<Hash>, f0: Hash, u0: Hash, n: nat)
      returns (ret: seq<Hash>, back: seq<Hash>, common: Hash, fn: nat)
      requires Linked(T(), a) && Linked(T(), b) && n < |a| && n < |b| && a[0] == b[0]
      requires f0 == a[n] && u0 == b[n] && Downward(ret0, a, n + 1) && Downward(back0, b, n + 1)
      ensures fn <= n && common == a[fn] == b[fn] && (fn < n ==> a[fn + 1] != b[fn + 1])
      ensures Downward(ret, a, fn) && Downward(back, b, fn + 1)
    {
      ret, back, fn := ret0, back0, n;
      var f, u := f0, u0;
      while f != u
        invariant fn <= n && f == a[fn] && u == b[fn] && (fn < n ==> a[fn + 1] != b[fn + 1])
        invariant Downward(ret, a, fn + 1) && Downward(back, b, fn + 1)
        decreases fn
      {
        ret, back := ret + [f], back + [u];
        assert Follows(T(), a, fn) && Follows(T(), b, fn);
        f, u := details[f].parent, details[u].parent;
        fn := fn - 1;
      }
      ret := ret + [f];
      common := f;
    }

    /** clearBlockBlooms: empties blocks [begin, end) and rebuilds the unions above them. */
    method ClearBlockBlooms(begin: nat, end: nat)
      requires begin < end && Summed(l0, l1)
      modifies this`l0, this`l1
      ensures forall n: nat :: At(l0, n) == if begin <= n < end then {} else At(old(l0), n)
      ensures Summed(l0, l1)
    {
      var item := begin;
      while item != end
        invariant begin <= item <= end && l1 == old(l1)
        invariant forall n: nat :: At(l0, n) == if begin <= n < item then {} else At(old(l0), n)
      {
        ghost var before := l0;
        l0 := l0[item := {}];
        assert forall n: nat :: At(l0, n) == if n == item then {} else At(before, n);
        item := item + 1;
      }
      item := begin / SIZE;
      var endDirty := (end - 1) / SIZE + 1;
      while item != endDirty
        invariant begin / SIZE <= item <= endDirty
        invariant forall n: nat :: At(l0, n) == if begin <= n < end then {} else At(old(l0), n)
        invariant forall m: nat :: At(l1, m) == if begin / SIZE <= m < item then Children(l0, m) else At(old(l1), m)
      {
        var acc := UnionOf(l0, item);
        ghost var before := l1;
        l1 := l1[item := acc];
        assert forall m: nat :: At(l1, m) == if m == item then acc else At(before, m);
        item := item + 1;
      }
      UntouchedSums(old(l0), l0, old(l1), begin, end);
    }

    /** clearCachesDuringChainReversion: nothing of the old branch stays in the blooms. */
    method Revert(firstInvalid: nat)
      requires Valid() && 1 <= firstInvalid <= headNumber
      modifies this`l0, this`l1
      ensures Bloomed(T(), Canonical()[firstInvalid - 1], l0, l1)
    {
      ghost var c, x := Canonical(), Canonical()[firstInvalid - 1];
      ClearBlockBlooms(firstInvalid, headNumber + 1);
      ChainPrefix(T(), head, firstInvalid - 1);
      forall n: nat ensures At(l0, n) == Expected(T(), x, n) {
        if 1 <= n <= headNumber { ChainPrefix(T(), head, n); }
        if 1 <= n < firstInvalid { assert Chain(T(), x)[n] == c[n]; }
      }
    }

    /** One canonical block enters both bloom levels and the number index. */
    method Note(x: Hash, ghost t: Tree, ghost c: seq<Hash>, ghost n: nat, ghost pos: nat)
      requires t == T() && Linked(t, c) && 1 <= n <= pos < |c| && x == c[pos]
      requires Partly(t, l0, l1, index, c, n, pos + 1)
      modifies this`index, this`l0, this`l1
      ensures Partly(t, l0, l1, index, c, n, pos)
    {
      var num, bloom := details[x].number, details[x].bloom;
      OrKeepsSum(l0, l1, num, bloom);
      l0 := l0[num := At(l0, num) + bloom];
      l1 := l1[num / SIZE := At(l1, num / SIZE) + bloom];
      index := index[num := x];
      forall m: nat ensures At(l0, m) == Noted(t, c, n, pos, m) {
        assert At(old(l0), m) == Noted(t, c, n, pos + 1, m);
      }
    }

    /** The walk from the new head back to the common block: `c` is the new chain and shares `n` blocks with the old. */
    method NoteRoute(route: seq<Hash>, common: Hash, ghost t: Tree, ghost a: seq<Hash>, ghost c: seq<Hash>,
        ghost n: nat)
      requires t == T() && Linked(t, c) && Fits(a, c, n, route) && common == c[n - 1]
      requires Partly(t, l0, l1, index, c, n, |c|)
      modifies this`index, this`l0, this`l1
      ensures Partly(t, l0, l1, index, c, n, n)
    {
      ghost var base := |a| - n + 1;
      var i := |route|;
      while i > 0 && route[i - 1] != common
        invariant base <= i <= |route| && T() == t
        invariant Partly(t, l0, l1, index, c, n, n + (i - base))
      {
        i := i - 1;
        Note(route[i], t, c, n, n + (i - base));
      }
    }

    /** The old branch's part of the route, then the new branch's. */
    method Sides(route: seq<Hash>, common: Hash, ghost a: seq<Hash>, ghost c: seq<Hash>, ghost n: nat)
      returns (dead: seq<Hash>, live: seq<Hash>)
      requires n == Shared(a, c) && Fits(a, c, n, route) && common == c[n - 1]
      ensures TurnsInto(a, c, dead, live)
    {
      ghost var p := |a| - n;
      dead, live := [], [];
      var isOld, i := true, 0;
      while i < |route|
        invariant 0 <= i <= |route| && isOld == (i <= p)
        invariant |dead| == (if isOld then i else p) && forall k :: 0 <= k < |dead| ==> dead[k] == a[|a| - 1 - k]
        invariant |live| == (if isOld then 0 else i - p - 1) && forall k :: 0 <= k < |live| ==> live[k] == c[n + k]
      {
        if route[i] == common {
          isOld := false;
        } else if isOld {
          dead := dead + [route[i]];
        } else {
          live := live + [route[i]];
        }
        i := i + 1;
      }
    }

    /**
     A block joins the tree; when it is the heaviest it becomes the head. `tieWins` says that ties are broken by gas
     and that the block used more of it than the head. A stored block counts as known only up to the head's number, so
     that after a rewind the blocks above can be imported once more; a hash names one block, with one content.
     */
    method Import(h: Hash, parent: Hash, increase: nat, bloom: Bloom, tieWins: bool) returns (r: Outcome)
      requires Valid()
      requires h in details && h != genesis ==>
                 details[h].parent == parent && details[h].bloom == bloom
                 && (parent in details ==> details[h].difficulty == details[parent].difficulty + increase)
      modifies this
      ensures Valid()
      ensures r.AlreadyKnown? <==> h in old(details) && old(details)[h].number <= old(headNumber)
      ensures r.UnknownParent? <==> !r.AlreadyKnown? && parent !in old(details)
      ensures !r.Imported? ==> details == old(details) && head == old(head)
      ensures r.Imported? ==>
                var p := old(details)[parent];
                var d := Detail(p.number + 1, parent, p.difficulty + increase, bloom);
                var td := old(details[head].difficulty);
                && details == old(details)[h := d]
                && head == (if d.difficulty > td || (tieWins && d.difficulty == td) then h else old(head))
                && Grown(old(T())) && TurnsInto(old(Canonical()), Canonical(), r.dead, r.live)
    {
      if h in details && details[h].number <= headNumber { return AlreadyKnown; }
      assert h in details ==> Rooted(T(), h);
      if parent !in details { return UnknownParent; }
      var d := Detail(details[parent].number + 1, parent, details[parent].difficulty + increase, bloom);
      if d.difficulty > details[head].difficulty || (tieWins && d.difficulty == details[head].difficulty) {
        var dead, live := Adopt(h, d);
        r := Imported(dead, live);
      } else {
        GrownKeeps(T(), h, d, head);
        ghost var before := T();
        details := details[h := d];
        forall n: nat ensures At(l0, n) == Expected(T(), head, n) { ExpectedStays(before, T(), head, n); }
        r := Imported([], []);
      }
    }

    /** The canonical part of an import. */
    method Adopt(h: Hash, d: Detail) returns (dead: seq<Hash>, live: seq<Hash>)
      requires Valid() && Enters(T(), head, h, d)
      modifies this
      ensures Valid() && d.parent in old(details) && details == old(details)[h := d] && head == h
      ensures Grown(old(T())) && TurnsInto(old(Canonical()), Canonical(), dead, live)
    {
      ghost var a, c := Canonical(), Chain(T(), d.parent) + [h];
      ghost var n := Shared(a, c);
      var route, common := Attach(h, d);
      NoteRoute(route, common, T(), a, c, n);
      AllNoted(T(), l0, l1, index, h, n);
      head, headNumber := h, d.number;
      dead, live := Sides(route, common, a, c, n);
    }

    /** Finds the route to the new block and enters its details. */
    method Attach(h: Hash, d: Detail) returns (route: seq<Hash>, common: Hash)
      requires Valid() && Enters(T(), head, h, d)
      modifies this`details, this`l0, this`l1
      ensures details == old(details)[h := d] && Grown(old(T())) && Grown(T())
      ensures var a, c := old(Canonical()), old(Chain(T(), d.parent)) + [h];
              var n := Shared(a, c);
              && c == Chain(T(), h) && Linked(T(), c) && Fits(a, c, n, route) && common == c[n - 1]
              && Partly(T(), l0, l1, index, c, n, |c|)
    {
      ghost var before := T();
      route, common := RouteTo(h, d);
      Leave(common, d.parent);
      TreeExtends(before, head, h, d);
      ReadyToNote(before, l0, l1, index, head, h, d);
      details := details[h := d];
    }

    /** When the new chain is not just longer, the blooms of the branch it leaves are cleared. */
    method Leave(common: Hash, ghost to: Hash)
      requires Valid() && to in details && common == Common(T(), head, to)
      modifies this`l0, this`l1
      ensures common in details && Bloomed(T(), common, l0, l1)
    {
      CommonBelow(T(), head, to);
      if common != head {
        Revert(details[common].number + 1);
      }
    }

    /** The block may not be in the tree yet: its route is its parent's, and itself. */
    method RouteTo(h: Hash, d: Detail) returns (route: seq<Hash>, common: Hash)
      requires Grown(T()) && head in details && Enters(T(), head, h, d)
      ensures common == Common(T(), head, d.parent)
      ensures var a, c := Canonical(), Chain(T(), d.parent) + [h]; Fits(a, c, Shared(a, c), route)
    {
      route, common := TreeRoute(head, d.parent);
      RouteFits(T(), head, h, d);
      route := route + [h];
    }

    /** rewind: back to an earlier canonical block; the numbers above are forgotten by the blooms. */
    method Rewind(newHead: nat)
      requires Valid()
      modifies this
      ensures Valid() && details == old(details)
      ensures head == if newHead >= old(headNumber) then old(head) else old(Canonical())[newHead]
    {
      if newHead >= headNumber { return; }
      Revert(newHead + 1);
      ghost var c := Canonical();
      ChainPrefix(T(), head, newHead);
      head := if newHead == 0 then genesis else index[newHead];
      headNumber := newHead;
    }

    /** withBlockBloom: the numbers of the blocks whose bloom has the bits of `b`. */
    method WithBlockBloom(b: Bloom, earliest: nat, latest: nat) returns (ret: seq<nat>)
      requires Valid()
      ensures Increasing(ret)
      ensures forall n: nat :: n in ret <==>
                earliest <= n && b <= Expected(T(), head, n) && (n <= latest || InOverrun(latest, n))
    {
      ret := [];
      var index := earliest / Course(1);
      ghost var first := index;
      while index <= CeilDiv(latest, Course(1))
        invariant first <= index && Increasing(ret)
        invariant forall n: nat :: n in ret ==> n < Course(1) * index
        invariant forall n: nat :: n in ret <==>
                    first <= n / Course(1) < index && n / Course(1) <= CeilDiv(latest, Course(1)) &&
                        Hit(l0, b, earliest, latest, 1, n / Course(1), n)
        decreases CeilDiv(latest, Course(1)) + 1 - index
      {
        var part := Scan(b, earliest, latest, 1, index);
        IncreasingJoin(ret, part, Course(1) * index);
        ret := ret + part;
        index := index + 1;
      }
      forall n: nat ensures n in ret <==>
                earliest <= n && b <= Expected(T(), head, n) && (n <= latest || InOverrun(latest, n)) {
        assert At(l0, n) == Expected(T(), head, n);
      }
    }

    /** One entry of one level: sixteen blooms, of which the matching ones are searched below or listed. */
    method Scan(b: Bloom, earliest: nat, latest: nat, level: nat, index: nat) returns (ret: seq<nat>)
      requires level < 2 && Summed(l0, l1) && earliest / Course(level) <= index
      ensures Increasing(ret)
      ensures forall n: nat :: n in ret <==> Hit(l0, b, earliest, latest, level, index, n)
      decreases level, 1
    {
      ret := [];
      var fine := Course(level - 1);
      var obegin := if index == earliest / Course(level) then earliest / fine % SIZE else 0;
      var oend := if index == latest / Course(level) then latest / fine % SIZE + 1 else SIZE;
      EntryRange(earliest, level);
      EntryRange(latest, level);
      var o := obegin;
      while o < oend
        invariant obegin <= o && Increasing(ret)
        invariant forall n: nat :: n in ret <==>
                    Hit(l0, b, earliest, latest, level, index, n) && n < From(level, index, o)
        decreases oend - o
      {
        var part := SearchItem(b, earliest, latest, level, index, o);
        IncreasingJoin(ret, part, From(level, index, o));
        ret := ret + part;
        o := o + 1;
      }
    }

    /** One of the sixteen: a matching bloom is searched below, or is a block. */
    method SearchItem(b: Bloom, earliest: nat, latest: nat, level: nat, index: nat, o: nat) returns (part: seq<nat>)
      requires level < 2 && Summed(l0, l1) && o < SIZE && earliest / Course(level) <= index
      requires index == earliest / Course(level) ==> earliest / Course(level - 1) % SIZE <= o
      requires index == latest / Course(level) ==> o <= latest / Course(level - 1) % SIZE
      ensures Increasing(part)
      ensures forall n: nat :: n in part <==>
                Hit(l0, b, earliest, latest, level, index, n) && From(level, index, o) <= n < From(level, index, o + 1)
      decreases level, 0
    {
      var item := o + index * SIZE;
      var bloom := if level == 0 then At(l0, item) else At(l1, item);
      part := [];
      if b <= bloom {
        if level > 0 {
          part := Scan(b, earliest, latest, level - 1, item);
        } else {
          part := [item];
        }
      }
      if level == 0 {
        BlockHits(l0, b, earliest, latest, index, o, part);
      } else {
        UnionHits(l0, l1, b, earliest, latest, index, o, part);
      }
    }
  }

  lemma IncreasingJoin(s: seq<nat>, p: seq<nat>, bound: nat)
    requires Increasing(s) && Increasing(p)
    requires (forall n :: n in s ==> n < bound) && (forall n :: n in p ==> bound <= n)
    ensures Increasing(s + p)
  {
    forall i, j | 0 <= i < j < |s + p| ensures (s + p)[i] < (s + p)[j] {
      if i < |s| <= j { assert s[i] in s && p[j - |s|] in p; }
    }
  }

  /** What one of the sixteen blooms of the lower level contributes. */
  lemma BlockHits(l0: Level, b: Bloom, earliest: nat, latest: nat, index: nat, o: nat, part: seq<nat>)
    requires o < SIZE && (index == latest / SIZE ==> o <= latest % SIZE)
    requires (index == earliest / SIZE ==> earliest % SIZE <= o) && earliest / SIZE <= index
    requires part == if b <= At(l0, o + index * SIZE) then [o + index * SIZE] else []
    ensures forall n: nat :: n in part <==>
              Hit(l0, b, earliest, latest, 0, index, n) && From(0, index, o) <= n < From(0, index, o + 1)
  {
  }

  /** And of the upper level: what its sixteen blocks contribute; when it does not match, none of them does. */
  lemma UnionHits(l0: Level, l1: Level, b: Bloom, earliest: nat, latest: nat, index: nat, o: nat, part: seq<nat>)
    requires Summed(l0, l1) && o < SIZE && (index == latest / (SIZE * SIZE) ==> o <= latest / SIZE % SIZE)
    requires var item := o + index * SIZE;
             if b <= At(l1, item) then forall n: nat :: n in part <==> Hit(l0, b, earliest, latest, 0, item, n)
             else part == []
    ensures forall n: nat :: n in part <==>
              Hit(l0, b, earliest, latest, 1, index, n) && From(1, index, o) <= n < From(1, index, o + 1)
  {
    var item := o + index * SIZE;
    assert At(l1, item) == Children(l0, item);
    forall n: nat | SIZE * item <= n < SIZE * item + SIZE ensures At(l0, n) <= At(l1, item) {
      assert forall x :: x in At(l0, n) ==> x in Children(l0, item);
    }
    assert latest / SIZE / SIZE == latest / (SIZE * SIZE);
  }

  /** The first and the last bloom of an entry that can matter. */
  lemma EntryRange(x: nat, level: nat)
    requires level < 2
    ensures var o := x / Course(level - 1) % SIZE;
            From(level, x / Course(level), o) <= x < From(level, x / Course(level), o + 1)
  {
    assert x / SIZE / SIZE == x / (SIZE * SIZE);
  }

  /** The first block under bloom `o` of an entry. */
  ghost function From(level: nat, index: nat, o: nat): nat {
    if level == 0 then SIZE * index + o else SIZE * SIZE * index + SIZE * o
  }

  /** Blocks under one entry of a level. */
  function Course(level: int): nat { if level < 0 then 1 else if level == 0 then SIZE else SIZE * SIZE }

  /** Block `n` lies under the entry, in range as far as this entry can tell, and has the bits. */
  ghost predicate Hit(l0: Level, b: Bloom, earliest: nat, latest: nat, level: nat, index: nat, n: nat) {
    && Course(level) * index <= n < Course(level) * index + Course(level)
    && earliest <= n && (index == latest / Course(level) ==> n <= latest) && b <= At(l0, n)
  }

  /** The top loop runs one entry too far unless `latest` is a multiple of 256. */
  predicate InOverrun(latest: nat, n: nat) {
    latest / Course(1) < n / Course(1) <= CeilDiv(latest, Course(1))
  }

  /** Numbers above `latest` can be returned if and only if it is not a multiple of 256. */
  lemma OverrunIff(latest: nat)
    ensures (exists n: nat :: InOverrun(latest, n)) <==> latest % Course(1) != 0
  {
    if latest % Course(1) != 0 {
      assert InOverrun(latest, Course(1) * CeilDiv(latest, Course(1)));
    }
  }

  /**
   Taking `dead` off the end of one chain, last block first, and adding
   `live` gives the other; the two share nothing.
   */
  ghost predicate TurnsInto(a: seq<Hash>, c: seq<Hash>, dead: seq<Hash>, live: seq<Hash>) {
    var n := Shared(a, c);
    dead == Reversed(a[n..]) && live == c[n..]
  }

  /** The dead blocks are those that were canonical and no longer are, the live ones the reverse. */
  lemma ReorgLists(t: Tree, t': Tree, a: Hash, c: Hash, dead: seq<Hash>, live: seq<Hash>, x: Hash)
    requires Grown(t) && Grown(t') && a in t.details && t.genesis == t'.genesis && c in t'.details
    requires forall y :: y in t.details ==> y in t'.details && t'.details[y] == t.details[y]
    requires TurnsInto(Chain(t, a), Chain(t', c), dead, live)
    ensures x in dead <==> x in Chain(t, a) && x !in Chain(t', c)
    ensures x in live <==> x in Chain(t', c) && x !in Chain(t, a)
  {
    ChainStays(t, t', a);
    SharedSym(Chain(t', a), Chain(t', c));
    OffShared(t', a, c, x);
    OffShared(t', c, a, x);
    ListsAre(Chain(t', a), Chain(t', c), dead, live, x);
  }

  lemma ListsAre(a: seq<Hash>, c: seq<Hash>, dead: seq<Hash>, live: seq<Hash>, x: Hash)
    requires TurnsInto(a, c, dead, live)
    ensures x in dead <==> exists i :: Shared(a, c) <= i < |a| && a[i] == x
    ensures x in live <==> exists i :: Shared(a, c) <= i < |c| && c[i] == x
  {
    var n := Shared(a, c);
    assert forall i :: n <= i < |a| ==> a[i] == dead[|a| - 1 - i];
    assert forall i :: n <= i < |c| ==> c[i] == live[i - n];
  }

  lemma SharedSym(a: seq<Hash>, b: seq<Hash>)
    ensures Shared(a, b) == Shared(b, a)
  {
    SharedIs(b, a, Shared(a, b));
  }

  /** Above the shared part is exactly what the other chain does not have. */
  lemma OffShared(t: Tree, a: Hash, c: Hash, x: Hash)
    requires Grown(t) && a in t.details && c in t.details
    ensures var ca, cc := Chain(t, a), Chain(t, c);
            (exists i :: Shared(ca, cc) <= i < |ca| && ca[i] == x) <==> x in ca && x !in cc
  {
    var ca, cc := Chain(t, a), Chain(t, c);
    var n := Shared(ca, cc);
    if i :| n <= i < |ca| && ca[i] == x {
      if j :| 0 <= j < |cc| && cc[j] == x { OnBothIsShared(t, a, c, i, j); }
    }
    if i :| 0 <= i < |ca| && ca[i] == x {
      if i < n { assert x == ca[..n][i] == cc[..n][i] == cc[i]; }
    }
  }

  /**
   A block that may enter: it stands on a stored parent, and if it is
   stored itself it is this block and lies above the head.
   */
  ghost predicate Enters(t: Tree, head: Hash, h: Hash, d: Detail)
    requires head in t.details
  {
    && d.parent in t.details && d.number == t.details[d.parent].number + 1
    && (h in t.details ==> h != t.genesis && t.details[h] == d && d.number > t.details[head].number)
  }

  lemma GrownKeeps(t: Tree, h: Hash, d: Detail, x: Hash)
    requires Grown(t) && d.parent in t.details && d.number == t.details[d.parent].number + 1
    requires h in t.details ==> t.details[h] == d
    requires x in t.details
    ensures Grown(Tree(t.details[h := d], t.genesis))
    ensures Chain(Tree(t.details[h := d], t.genesis), x) == Chain(t, x)
  {
    var t' := Tree(t.details[h := d], t.genesis);
    forall x | x in t'.details ensures Rooted(t', x) {
      if x != h { assert Rooted(t, x); }
    }
    ChainStays(t, t', x);
  }

  lemma RouteFound(t: Tree, from: Hash, to: Hash, ret: seq<Hash>, n: nat)
    requires Grown(t) && from in t.details && to in t.details
    requires var a, b := Chain(t, from), Chain(t, to);
             && n < |a| && n < |b| && a[n] == b[n] && (n + 1 < |a| && n + 1 < |b| ==> a[n + 1] != b[n + 1])
             && Downward(ret, a, n)
    ensures ret + Chain(t, to)[n + 1..] == Route(t, from, to) && Chain(t, from)[n] == Common(t, from, to)
  {
    MeetIsShared(t, from, to, n);
    assert ret == Reversed(Chain(t, from)[n..]);
  }

  /** Where the common block stands on the two chains. */
  lemma CommonAt(t: Tree, from: Hash, to: Hash)
    requires Grown(t) && from in t.details && to in t.details
    ensures var a, p, x := Chain(t, from), Chain(t, to), Common(t, from, to);
            var n := Shared(a, p);
            && 1 <= n && x == a[n - 1] == p[n - 1] && x in t.details && t.details[x].number == n - 1
            && Chain(t, x) == a[..n] == p[..n] && (n == |a| <==> x == from)
            && (forall k :: n <= k < |a| ==> a[k] != x) && (forall k :: n <= k < |p| ==> p[k] != x)
  {
    var a, p, x := Chain(t, from), Chain(t, to), Common(t, from, to);
    var n := Shared(a, p);
    CommonOnBoth(t, from, to);
    ChainLinked(t, from);
    ChainLinked(t, to);
    assert x == a[n - 1] == a[..n][n - 1] == p[..n][n - 1] == p[n - 1];
    assert t.details[x].number == n - 1;
  }

  /** The tree with the new block in it: no other chain changes. */
  lemma TreeExtends(t: Tree, head: Hash, h: Hash, d: Detail)
    requires Grown(t) && head in t.details && Enters(t, head, h, d)
    ensures var t', p, x := Tree(t.details[h := d], t.genesis), Chain(t, d.parent), Common(t, head, d.parent);
            var a, c := Chain(t, head), p + [h];
            var n := Shared(a, c);
            && Grown(t') && c == Chain(t', h) && a == Chain(t', head) && Linked(t', c)
            && n == Shared(a, p) && 1 <= n < |c| && x == a[n - 1] == c[n - 1] && x in t.details
            && Chain(t, x) == c[..n]
  {
    var t', p := Tree(t.details[h := d], t.genesis), Chain(t, d.parent);
    GrownKeeps(t, h, d, head);
    GrownKeeps(t, h, d, d.parent);
    NewChain(t, t', head, h);
    CommonAt(t, head, d.parent);
    assert (p + [h])[..Shared(Chain(t, head), p)] == p[..Shared(Chain(t, head), p)];
  }

  lemma RouteShape(a: seq<Hash>, p: seq<Hash>, h: Hash, n: nat)
    requires 1 <= n <= |a| && n <= |p| && a[n - 1] == p[n - 1] && h != a[n - 1]
    requires (forall k :: n <= k < |a| ==> a[k] != a[n - 1]) && (forall k :: n <= k < |p| ==> p[k] != p[n - 1])
    ensures Fits(a, p + [h], n, Reversed(a[n - 1..]) + p[n..] + [h])
  {
    var down, up := Reversed(a[n - 1..]), p[n..];
    var route := down + up + [h];
    assert forall k :: 0 <= k < |down| ==> route[k] == down[k];
    assert forall k :: |down| <= k < |route| - 1 ==> route[k] == up[k - |down|];
  }

  /** The route to the parent becomes the route to the new block by adding it at the end. */
  lemma RouteFits(t: Tree, head: Hash, h: Hash, d: Detail)
    requires Grown(t) && head in t.details && Enters(t, head, h, d)
    ensures var a, c := Chain(t, head), Chain(t, d.parent) + [h];
            Fits(a, c, Shared(a, c), Route(t, head, d.parent) + [h])
  {
    SharedWithout(t, head, h, d);
    CommonIsOther(t, head, h, d);
    CommonAt(t, head, d.parent);
    RouteShape(Chain(t, head), Chain(t, d.parent), h, Shared(Chain(t, head), Chain(t, d.parent)));
  }

  lemma SharedWithout(t: Tree, head: Hash, h: Hash, d: Detail)
    requires Grown(t) && head in t.details && Enters(t, head, h, d)
    ensures var a, p := Chain(t, head), Chain(t, d.parent); Shared(a, p + [h]) == Shared(a, p)
  {
    TreeExtends(t, head, h, d);
  }

  lemma CommonIsOther(t: Tree, head: Hash, h: Hash, d: Detail)
    requires Grown(t) && head in t.details && Enters(t, head, h, d)
    ensures h != Common(t, head, d.parent)
  {
    CommonBelow(t, head, d.parent);
  }

  lemma CommonBelow(t: Tree, from: Hash, to: Hash)
    requires Grown(t) && from in t.details && to in t.details
    ensures var x := Common(t, from, to);
            && x in t.details && t.details[x].number <= t.details[from].number
            && Chain(t, from)[t.details[x].number] == x && (x != from ==> t.details[x].number < t.details[from].number)
  {
    CommonAt(t, from, to);
  }

  lemma NewChain(t: Tree, t': Tree, head: Hash, h: Hash)
    requires Grown(t) && Grown(t') && head in t.details && h in t'.details && h != t.genesis
    requires h in t.details ==> t.details[h].number > t.details[head].number
    requires var p := t'.details[h].parent; p in t.details && p in t'.details && Chain(t', p) == Chain(t, p)
    requires t'.genesis == t.genesis && forall x :: x in t.details ==> x in t'.details && t'.details[x] == t.details[x]
    ensures var p := t'.details[h].parent;
            var a, c := Chain(t, head), Chain(t, p) + [h];
            c == Chain(t', h) && Linked(t', c) && Shared(a, c) == Shared(a, Chain(t, p))
  {
    var p := t'.details[h].parent;
    var a, b := Chain(t, head), Chain(t, p);
    var c, n := b + [h], Shared(a, Chain(t, p));
    ChainLinked(t', h);
    ChainLinked(t, head);
    assert c[..n] == b[..n];
    SharedIs(a, c, n);
  }

  /** `route` runs down `a` to block n - 1, which it shares with `c`, and up `c`. */
  ghost predicate Fits(a: seq<Hash>, c: seq<Hash>, n: nat, route: seq<Hash>) {
    && 1 <= n <= |a| && n < |c| && |route| == |a| - n + 1 + |c| - n
    && (forall k :: 0 <= k < |route| ==> (route[k] == c[n - 1] <==> k == |a| - n))
    && (forall k :: 0 <= k < |a| - n ==> route[k] == a[|a| - 1 - k])
    && forall k :: |a| - n < k < |route| ==> route[k] == c[n + (k - (|a| - n) - 1)]
  }

  lemma ExpectedStays(t: Tree, t': Tree, h: Hash, n: nat)
    requires Grown(t) && Grown(t') && h in t.details && t'.genesis == t.genesis
    requires forall x :: x in t.details ==> x in t'.details && t'.details[x] == t.details[x]
    ensures Expected(t', h, n) == Expected(t, h, n)
  {
    ChainStays(t, t', h);
    if 1 <= n <= t.details[h].number { ChainPrefix(t, h, n); }
  }

  /** The lower level while blocks of `c` from `pos` upwards have been noted and those below `n` are shared. */
  ghost function Noted(t: Tree, c: seq<Hash>, n: nat, pos: int, m: nat): Bloom
    requires Linked(t, c)
  {
    if m < |c| && (1 <= m < n || pos <= m) then t.details[c[m]].bloom else {}
  }

  /** Blocks of `c` from `pos` upwards are noted, those below `n` were already there. */
  ghost predicate Partly(t: Tree, l0: Level, l1: Level, index: map<nat, Hash>, c: seq<Hash>, n: nat, pos: nat)
    requires Linked(t, c)
  {
    && Summed(l0, l1)
    && (forall m: nat :: At(l0, m) == Noted(t, c, n, pos, m))
    && forall m: nat :: 1 <= m < |c| && (m < n || pos <= m) ==> m in index && index[m] == c[m]
  }

  lemma AllNoted(t: Tree, l0: Level, l1: Level, index: map<nat, Hash>, h: Hash, n: nat)
    requires Grown(t) && h in t.details && Linked(t, Chain(t, h)) && 1 <= n <= |Chain(t, h)|
    requires Partly(t, l0, l1, index, Chain(t, h), n, n)
    ensures Indexed(t, h, index) && Bloomed(t, h, l0, l1)
  {
    forall m: nat ensures At(l0, m) == Expected(t, h, m) {
      assert At(l0, m) == Noted(t, Chain(t, h), n, n, m);
    }
  }

  /** After the reversal the new chain is in the blooms and the index up to the common block. */
  lemma ReadyToNote(t: Tree, l0: Level, l1: Level, index: map<nat, Hash>, head: Hash, h: Hash, d: Detail)
    requires Grown(t) && head in t.details && Enters(t, head, h, d) && Indexed(t, head, index)
    requires Common(t, head, d.parent) in t.details && Bloomed(t, Common(t, head, d.parent), l0, l1)
    ensures var t', c := Tree(t.details[h := d], t.genesis), Chain(t, d.parent) + [h];
            Linked(t', c) && Partly(t', l0, l1, index, c, Shared(Chain(t, head), c), |c|)
  {
    TreeExtends(t, head, h, d);
    var t', c := Tree(t.details[h := d], t.genesis), Chain(t, d.parent) + [h];
    SharedBlooms(t, t', l0, l1, index, head, Common(t, head, d.parent), c, Shared(Chain(t, head), c));
  }

  lemma SharedBlooms(t: Tree, t': Tree, l0: Level, l1: Level, index: map<nat, Hash>, head: Hash, common: Hash,
      c: seq<Hash>, n: nat)
    requires Grown(t) && head in t.details && common in t.details
    requires Linked(t', c) && Indexed(t, head, index) && Bloomed(t, common, l0, l1)
    requires forall x :: x in t.details ==> x in t'.details && t'.details[x] == t.details[x]
    requires n <= |c| && n <= |Chain(t, head)| && Chain(t, head)[..n] == c[..n]
    requires Chain(t, common) == c[..n]
    ensures Partly(t', l0, l1, index, c, n, |c|)
  {
    var a := Chain(t, head);
    forall m: nat ensures At(l0, m) == Noted(t', c, n, |c|, m) {
      assert At(l0, m) == Expected(t, common, m);
      if 1 <= m < n {
        ChainPrefix(t, common, m);
        assert c[m] == c[..n][m];
      }
    }
    forall m: nat | 1 <= m < n ensures m in index && index[m] == c[m] {
      assert a[..n][m] == c[..n][m];
    }
  }

  /** `r` is the part of `c` from `n` upwards, last block first. */
  ghost predicate Downward(r: seq<Hash>, c: seq<Hash>, n: nat) {
    n <= |c| && |r| == |c| - n && forall i :: 0 <= i < |r| ==> r[i] == c[|c| - 1 - i]
  }

  /** Every block of a chain but the first names its predecessor. */
  ghost predicate Linked(t: Tree, c: seq<Hash>) {
    && (forall k :: 0 <= k < |c| ==> c[k] in t.details && t.details[c[k]].number == k)
    && forall k :: 0 < k < |c| ==> Follows(t, c, k)
  }

  ghost predicate Follows(t: Tree, c: seq<Hash>, k: int)
    requires 0 < k < |c| && c[k] in t.details
  {
    t.details[c[k]].parent == c[k - 1]
  }

  lemma ChainLinked(t: Tree, h: Hash)
    requires Grown(t) && h in t.details
    ensures Linked(t, Chain(t, h))
  {
    forall k | 0 <= k < |Chain(t, h)|
      ensures Chain(t, h)[k] in t.details && t.details[Chain(t, h)[k]].number == k
      ensures k > 0 ==> Follows(t, Chain(t, h), k)
    {
      ChainPrefix(t, h, k);
    }
  }

  /** Chains that meet at height `n` and differ just above it share exactly n + 1 blocks. */
  lemma MeetIsShared(t: Tree, from: Hash, to: Hash, n: nat)
    requires Grown(t) && from in t.details && to in t.details
    requires var a, b := Chain(t, from), Chain(t, to);
             n < |a| && n < |b| && a[n] == b[n] && (n + 1 < |a| && n + 1 < |b| ==> a[n + 1] != b[n + 1])
    ensures n + 1 == Shared(Chain(t, from), Chain(t, to))
  {
    ChainPrefix(t, from, n);
    ChainPrefix(t, to, n);
    SharedIs(Chain(t, from), Chain(t, to), n + 1);
  }

  /** The or of the sixteen blooms below entry `m`. */
  method UnionOf(l: Level, m: nat) returns (acc: Bloom)
    ensures acc == Children(l, m)
  {
    acc := {};
    var o := 0;
    while o < SIZE
      invariant o <= SIZE
      invariant forall x :: x in acc <==> exists k :: SIZE * m <= k < SIZE * m + o && x in At(l, k)
    {
      var bloom := At(l, SIZE * m + o);
      acc := acc + bloom;
      o := o + 1;
    }
  }

  lemma UntouchedSums(l0: Level, l0': Level, l1: Level, begin: nat, end: nat)
    requires begin < end && Summed(l0, l1)
    requires forall n: nat :: At(l0', n) == if begin <= n < end then {} else At(l0, n)
    ensures forall m: nat :: !(begin / SIZE <= m < (end - 1) / SIZE + 1) ==> At(l1, m) == Children(l0', m)
  {
    forall m: nat | !(begin / SIZE <= m < (end - 1) / SIZE + 1) ensures At(l1, m) == Children(l0', m) {
      assert forall k: nat :: SIZE * m <= k < SIZE * m + SIZE ==> At(l0', k) == At(l0, k);
      assert Children(l0', m) == Children(l0, m) == At(l1, m);
    }
  }
}
