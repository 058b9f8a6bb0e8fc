/**
 The tree of known blocks and the index of its canonical chain
 (libcv/BlockChain.cpp): ancestors, number-to-hash entries, and the two-level
 bloom index. A bloom filter is the set of its bits.
 */
module ChainTree {

  type Hash = nat
  type Bloom = set<nat>

  /** c_bloomIndexSize. */
  const SIZE: nat := 16

  datatype Detail = Detail(number: nat, parent: Hash, difficulty: nat, bloom: Bloom)

  datatype Tree = Tree(details: map<Hash, Detail>, genesis: Hash)

  ghost predicate Grown(t: Tree) {
    && t.genesis in t.details && t.details[t.genesis].number == 0
    && forall h {:trigger Rooted(t, h)} :: h in t.details ==> Rooted(t, h)
  }

  /** A block other than genesis stands one above its parent. */
  ghost predicate Rooted(t: Tree, h: Hash)
    requires h in t.details
  {
    h == t.genesis
    || (t.details[h].parent in t.details && t.details[h].number == t.details[t.details[h].parent].number + 1)
  }

  /** The blocks from genesis to `h`. */
  ghost function Chain(t: Tree, h: Hash): (c: seq<Hash>)
    requires Grown(t) && h in t.details
    ensures |c| == t.details[h].number + 1 && c[|c| - 1] == h && c[0] == t.genesis
    decreases t.details[h].number
  {
    assert Rooted(t, h);
    if h == t.genesis then [h] else Chain(t, t.details[h].parent) + [h]
  }

  /** Each block of a chain ends its own chain. */
  lemma {:induction false} ChainPrefix(t: Tree, h: Hash, n: nat)
    requires Grown(t) && h in t.details && n <= t.details[h].number
    ensures var x := Chain(t, h)[n];
            && x in t.details && t.details[x].number == n && Chain(t, x) == Chain(t, h)[..n + 1]
            && (n > 0 ==> t.details[x].parent == Chain(t, h)[n - 1])
    decreases t.details[h].number
  {
    var c := Chain(t, h);
    if n == t.details[h].number {
      assert c[..n + 1] == c;
    } else {
      assert Rooted(t, h);
      ChainPrefix(t, t.details[h].parent, n);
      assert c[..n + 1] == Chain(t, t.details[h].parent)[..n + 1];
    }
  }

  /** Adding a block changes no existing chain. */
  lemma {:induction false} ChainStays(t: Tree, t': Tree, h: Hash)
    requires Grown(t) && Grown(t') && h in t.details && t'.genesis == t.genesis
    requires forall x :: x in t.details ==> x in t'.details && t'.details[x] == t.details[x]
    ensures Chain(t', h) == Chain(t, h)
    decreases t.details[h].number
  {
    assert Rooted(t, h);
    if h != t.genesis { ChainStays(t, t', t.details[h].parent); }
  }

  /** How many blocks two chains share. */
  ghost function Shared(a: seq<Hash>, b: seq<Hash>): (n: nat)
    ensures n <= |a| && n <= |b| && a[..n] == b[..n]
    ensures n < |a| && n < |b| ==> a[n] != b[n]
  {
    SharedFrom(a, b, 0)
  }

  ghost function SharedFrom(a: seq<Hash>, b: seq<Hash>, i: nat): (n: nat)
    requires i <= |a| && i <= |b| && a[..i] == b[..i]
    ensures i <= n <= |a| && n <= |b| && a[..n] == b[..n]
    ensures n < |a| && n < |b| ==> a[n] != b[n]
    decreases |a| - i
  {
    if i == |a| || i == |b| || a[i] != b[i] then i else SharedFrom(a, b, i + 1)
  }

  lemma SharedIs(a: seq<Hash>, b: seq<Hash>, n: nat)
    requires n <= |a| && n <= |b| && a[..n] == b[..n]
    requires n < |a| && n < |b| ==> a[n] != b[n]
    ensures n == Shared(a, b)
  {
    var m := Shared(a, b);
    assert forall k :: 0 <= k < m ==> a[k] == a[..m][k] == b[..m][k] == b[k];
    assert forall k :: 0 <= k < n ==> a[k] == a[..n][k] == b[..n][k] == b[k];
  }

  /** The deepest block on both chains. */
  ghost function Common(t: Tree, a: Hash, b: Hash): Hash
    requires Grown(t) && a in t.details && b in t.details
  {
    SharesGenesis(t, a, b);
    Chain(t, a)[Shared(Chain(t, a), Chain(t, b)) - 1]
  }

  lemma SharesGenesis(t: Tree, a: Hash, b: Hash)
    requires Grown(t) && a in t.details && b in t.details
    ensures Shared(Chain(t, a), Chain(t, b)) > 0
  {
  }

  /** A block on both chains stands on their shared part. */
  lemma OnBothIsShared(t: Tree, a: Hash, b: Hash, i: nat, j: nat)
    requires Grown(t) && a in t.details && b in t.details
    requires i < |Chain(t, a)| && j < |Chain(t, b)| && Chain(t, a)[i] == Chain(t, b)[j]
    ensures i < Shared(Chain(t, a), Chain(t, b))
  {
    var ca, cb := Chain(t, a), Chain(t, b);
    ChainPrefix(t, a, i);
    ChainPrefix(t, b, j);
    assert forall k :: 0 <= k <= i ==> ca[k] == ca[..i + 1][k] == cb[..i + 1][k] == cb[k];
  }

  lemma CommonOnBoth(t: Tree, a: Hash, b: Hash)
    requires Grown(t) && a in t.details && b in t.details
    ensures Common(t, a, b) in Chain(t, a) && Common(t, a, b) in Chain(t, b)
    ensures Common(t, a, b) in t.details
    ensures Chain(t, Common(t, a, b)) == Chain(t, a)[..Shared(Chain(t, a), Chain(t, b))]
  {
    var ca, cb := Chain(t, a), Chain(t, b);
    var n := Shared(ca, cb);
    SharesGenesis(t, a, b);
    assert ca[n - 1] == ca[..n][n - 1] == cb[..n][n - 1] == cb[n - 1];
    ChainPrefix(t, a, n - 1);
  }

  /** The deepest common ancestor is an ancestor of both, and every common ancestor is one of its ancestors. */
  lemma CommonIsDeepest(t: Tree, a: Hash, b: Hash, x: Hash)
    requires Grown(t) && a in t.details && b in t.details
    ensures Common(t, a, b) in t.details
    ensures x in Chain(t, Common(t, a, b)) <==> x in Chain(t, a) && x in Chain(t, b)
  {
    var ca, cb := Chain(t, a), Chain(t, b);
    var n := Shared(ca, cb);
    CommonOnBoth(t, a, b);
    if x in ca && x in cb {
      var i :| 0 <= i < |ca| && ca[i] == x;
      var j :| 0 <= j < |cb| && cb[j] == x;
      OnBothIsShared(t, a, b, i, j);
      assert ca[..n][i] == x;
    }
    if x in ca[..n] {
      var i :| 0 <= i < n && ca[..n][i] == x;
      assert ca[i] == x && cb[i] == cb[..n][i] == x;
    }
  }

  function Reversed(s: seq<Hash>): (r: seq<Hash>)
    ensures |r| == |s| && forall i :: 0 <= i < |s| ==> r[i] == s[|s| - 1 - i]
  {
    seq(|s|, i requires 0 <= i < |s| => s[|s| - 1 - i])
  }

  /** From `a` down to the common block and up to `b`. */
  ghost function Route(t: Tree, a: Hash, b: Hash): seq<Hash>
    requires Grown(t) && a in t.details && b in t.details
  {
    var ca, cb := Chain(t, a), Chain(t, b);
    var n := Shared(ca, cb);
    SharesGenesis(t, a, b);
    Reversed(ca[n - 1..]) + cb[n..]
  }

  // ----- The number index -----

  /** Up to the head, the index names the head's ancestors; genesis needs no entry. */
  ghost predicate Indexed(t: Tree, head: Hash, index: map<nat, Hash>) {
    && Grown(t) && head in t.details
    && forall n: nat :: 1 <= n <= t.details[head].number ==> n in index && index[n] == Chain(t, head)[n]
  }

  // ----- The bloom index -----

  type Level = map<nat, Bloom>

  function At(l: Level, i: nat): Bloom { if i in l then l[i] else {} }

  function Children(l: Level, m: nat): Bloom {
    set k, x | SIZE * m <= k < SIZE * m + SIZE && x in At(l, k) :: x
  }

  /** What the lower level says of block `n`: its bloom if it is canonical, nothing above the head or for genesis. */
  ghost function Expected(t: Tree, head: Hash, n: nat): Bloom
    requires Grown(t) && head in t.details
  {
    if 1 <= n <= t.details[head].number then
      ChainPrefix(t, head, n);
      t.details[Chain(t, head)[n]].bloom
    else {}
  }

  ghost predicate Summed(l0: Level, l1: Level) { forall m: nat :: At(l1, m) == Children(l0, m) }

  ghost predicate Bloomed(t: Tree, head: Hash, l0: Level, l1: Level) {
    && Grown(t) && head in t.details
    && (forall n: nat :: At(l0, n) == Expected(t, head, n))
    && Summed(l0, l1)
  }

  /** Or-ing a block's bloom into both levels keeps the upper one the union of its children. */
  lemma OrKeepsSum(l0: Level, l1: Level, n: nat, b: Bloom)
    requires Summed(l0, l1)
    ensures Summed(l0[n := At(l0, n) + b], l1[n / SIZE := At(l1, n / SIZE) + b])
  {
    var l0', l1' := l0[n := At(l0, n) + b], l1[n / SIZE := At(l1, n / SIZE) + b];
    forall m: nat ensures At(l1', m) == Children(l0', m) {
      assert At(l1, m) == Children(l0, m);
      forall x | x in At(l1', m) ensures x in Children(l0', m) {
        if x in Children(l0, m) {
          var k :| SIZE * m <= k < SIZE * m + SIZE && x in At(l0, k);
          assert x in At(l0', k);
        } else {
          assert x in At(l0', n);
        }
      }
      forall x | x in Children(l0', m) ensures x in At(l1', m) {
        var k :| SIZE * m <= k < SIZE * m + SIZE && x in At(l0', k);
        if x in At(l0, k) { assert x in Children(l0, m); } else { assert k == n && m == n / SIZE; }
      }
    }
  }
}
