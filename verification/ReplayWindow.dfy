/**
 The replay window (libcv/NonceCheck.cpp, isBlockLimitOk and isNonceOk in libcv/BlockChain.cpp, and the packing
 loop of Block::sync in libcv/Block.cpp) on values: what the cache should hold, what an update makes of it,
 which transactions a block takes, and what follows for a whole chain.
 */
module ReplayWindow {

  /** Invalid256. */
  const INVALID: nat := 0x1_0000000000000000_0000000000000000_0000000000000000_0000000000000000 - 1

  datatype Tx = Tx(hash: nat, sender: nat, randomid: nat, blockLimit: nat)

  /** generateKey joins a fixed-width sender and the random id, so it is as good as the pair. */
  type Key = (nat, nat)

  function KeyOf(t: Tx): Key { (t.sender, t.randomid) }

  function Keys(txs: seq<Tx>): set<Key> { set t | t in txs :: KeyOf(t) }

  function Max(a: int, b: int): int { if a > b then a else b }

  /** The keys of blocks lo, ..., hi - 1. */
  ghost function KeysIn(chain: seq<seq<Tx>>, lo: nat, hi: nat): set<Key>
    requires hi <= |chain|
  {
    set i, t | lo <= i < hi && t in chain[i] :: KeyOf(t)
  }

  /** m_startblk once the head is block `last`. */
  function StartAt(last: nat, maxBlocks: nat): nat { if last > maxBlocks then last - maxBlocks else 0 }

  /** What a full rebuild holds: genesis is never read. */
  ghost function Window(chain: seq<seq<Tx>>, maxBlocks: nat): set<Key>
    requires |chain| > 0
  {
    KeysIn(chain, Max(1, StartAt(|chain| - 1, maxBlocks)), |chain|)
  }

  // ----- The cache -----

  datatype Cache = Cache(keys: set<Key>, startblk: nat, endblk: nat)

  /** updateCache: evict what left the window, or start anew, and add what is above the last block seen. */
  ghost function Updated(c: Cache, chain: seq<seq<Tx>>, maxBlocks: nat, rebuild: bool): Cache
    requires |chain| > 0
  {
    var last := |chain| - 1;
    var start := StartAt(last, maxBlocks);
    var kept := if rebuild then {} else c.keys - KeysIn(chain, c.startblk, start);
    Cache(kept + KeysIn(chain, Max((if rebuild then 0 else c.endblk) + 1, start), |chain|), start, last)
  }

  ghost predicate Exact(c: Cache, chain: seq<seq<Tx>>, maxBlocks: nat)
    requires |chain| > 0
  {
    c == Cache(Window(chain, maxBlocks), StartAt(|chain| - 1, maxBlocks), |chain| - 1)
  }

  lemma RebuildIsExact(c: Cache, chain: seq<seq<Tx>>, maxBlocks: nat)
    requires |chain| > 0
    ensures Exact(Updated(c, chain, maxBlocks, true), chain, maxBlocks)
  {
  }

  /** No key of a block that leaves the window, other than one the new block brings back, is still in the window. */
  ghost predicate LeavesCleanly(c: Cache, chain: seq<seq<Tx>>, maxBlocks: nat, block: seq<Tx>)
    requires |chain| > 0
  {
    var start := StartAt(|chain|, maxBlocks);
    KeysIn(chain, c.startblk, start) * KeysIn(chain, Max(1, start), |chain|) <= Keys(block)
  }

  /**
   One more block: import drops the block's own keys, then updates. The
   result is the rebuild exactly under `LeavesCleanly`.
   */
  ghost function Grown(c: Cache, chain: seq<seq<Tx>>, maxBlocks: nat, block: seq<Tx>): Cache
    requires |chain| > 0
  {
    Updated(c.(keys := c.keys - Keys(block)), chain + [block], maxBlocks, false)
  }

  lemma GrowthIsRebuild(c: Cache, chain: seq<seq<Tx>>, maxBlocks: nat, block: seq<Tx>)
    requires |chain| > 0 && Exact(c, chain, maxBlocks)
    ensures Exact(Grown(c, chain, maxBlocks, block), chain + [block], maxBlocks)
            <==> LeavesCleanly(c, chain, maxBlocks, block)
  {
    var start, long := StartAt(|chain|, maxBlocks), chain + [block];
    var out, rest := KeysIn(chain, c.startblk, start), KeysIn(chain, Max(1, start), |chain|);
    SameKeys(chain, long, c.startblk, start);
    SameKeys(chain, long, Max(1, start), |chain|);
    KeysSplit(long, Max(1, start), |chain|, |long|);
    KeysSplit(long, Max(|chain|, start), |chain|, |long|);
    assert KeysIn(long, |chain|, |long|) == Keys(block) by { LastKeys(chain, block); }
    var grown := Grown(c, chain, maxBlocks, block);
    assert Window(long, maxBlocks) == rest + Keys(block);
    assert grown.keys == ((c.keys - Keys(block)) - out) + Keys(block);
    assert c.keys <= out + rest by { if c.startblk < start { KeysSplit(chain, Max(1, c.startblk), start, |chain|); } }
    assert rest <= c.keys;
    forall k | k in out * rest && k !in Keys(block) ensures k !in grown.keys && k in Window(long, maxBlocks) {
    }
  }

  lemma SameKeys(chain: seq<seq<Tx>>, long: seq<seq<Tx>>, lo: nat, hi: nat)
    requires hi <= |chain| <= |long| && long[..|chain|] == chain
    ensures KeysIn(long, lo, hi) == KeysIn(chain, lo, hi)
  {
    assert forall i :: 0 <= i < |chain| ==> long[i] == long[..|chain|][i];
  }

  lemma KeysSplit(chain: seq<seq<Tx>>, lo: nat, mid: nat, hi: nat)
    requires mid <= hi <= |chain|
    ensures lo <= mid ==> KeysIn(chain, lo, hi) == KeysIn(chain, lo, mid) + KeysIn(chain, mid, hi)
  {
    forall k | k in KeysIn(chain, mid, hi) && lo <= mid ensures k in KeysIn(chain, lo, hi) {
    }
  }

  lemma LastKeys(chain: seq<seq<Tx>>, block: seq<Tx>)
    ensures KeysIn(chain + [block], |chain|, |chain| + 1) == Keys(block)
  {
    assert (chain + [block])[|chain|] == block;
  }

  // ----- Packing -----

  /** isBlockLimitOk with the chain at `number`. */
  predicate BlockLimitOk(number: nat, maxLimit: nat, t: Tx) {
    t.blockLimit != INVALID && number < t.blockLimit <= number + maxLimit
  }

  /** isNonceOk against the cached keys. */
  predicate NonceOk(keys: set<Key>, t: Tx) { t.randomid != INVALID && KeyOf(t) !in keys }

  /** What happens to a transaction that passed the checks: executed, or thrown out by the executive. */
  datatype Fate = Good | Drop | Future | Leave

  datatype Packing = Packing(txs: seq<Tx>, dropped: seq<nat>, future: seq<nat>, good: nat)

  /** The chain as the packing loop sees it, and the executive's verdicts. */
  datatype View = View(number: nat, maxLimit: nat, keys: set<Key>, fate: (seq<Tx>, Tx) -> Fate)

  predicate HasHash(txs: seq<Tx>, h: nat) { exists p :: 0 <= p < |txs| && txs[p].hash == h }

  predicate HasKey(txs: seq<Tx>, k: Key) { exists p :: 0 <= p < |txs| && KeyOf(txs[p]) == k }

  predicate Admissible(v: View, txs: seq<Tx>, t: Tx) {
    BlockLimitOk(v.number, v.maxLimit, t) && NonceOk(v.keys, t) && !HasKey(txs, KeyOf(t))
  }

  /** One transaction that is not in the block yet. */
  function Tried(v: View, p: Packing, t: Tx): Packing {
    if !Admissible(v, p.txs, t) then p.(dropped := p.dropped + [t.hash])
    else match v.fate(p.txs, t)
      case Good => p.(txs := p.txs + [t], good := p.good + 1)
      case Drop => p.(dropped := p.dropped + [t.hash])
      case Future => p.(future := p.future + [t.hash])
      case Leave => p
  }

  /** The loop over the queue from transaction `i` on; the limit is looked at only after a transaction was tried. */
  function Packed(v: View, p: Packing, queue: seq<Tx>, i: nat, limit: nat): Packing
    requires i <= |queue|
    decreases |queue| - i
  {
    if i == |queue| then p
    else if HasHash(p.txs, queue[i].hash) then Packed(v, p, queue, i + 1, limit)
    else
      var p' := Tried(v, p, queue[i]);
      if p'.good >= limit then p' else Packed(v, p', queue, i + 1, limit)
  }

  /** Every transaction passed the checks where it stands, and none stands there twice. */
  ghost predicate Packable(number: nat, maxLimit: nat, keys: set<Key>, txs: seq<Tx>) {
    forall i :: 0 <= i < |txs| ==> Stands(number, maxLimit, keys, txs, i)
  }

  ghost predicate Stands(number: nat, maxLimit: nat, keys: set<Key>, txs: seq<Tx>, i: nat)
    requires i < |txs|
  {
    && BlockLimitOk(number, maxLimit, txs[i]) && NonceOk(keys, txs[i])
    && forall p :: 0 <= p < i ==> KeyOf(txs[p]) != KeyOf(txs[i]) && txs[p].hash != txs[i].hash
  }

  /** Packing any queue keeps a packable block packable and moves nothing in it. */
  lemma {:induction false} PackedIsPackable(v: View, p: Packing, queue: seq<Tx>, i: nat, limit: nat)
    requires i <= |queue| && Packable(v.number, v.maxLimit, v.keys, p.txs)
    ensures var q := Packed(v, p, queue, i, limit);
            Packable(v.number, v.maxLimit, v.keys, q.txs) && |p.txs| <= |q.txs| && q.txs[..|p.txs|] == p.txs
    decreases |queue| - i
  {
    if i == |queue| {
    } else if HasHash(p.txs, queue[i].hash) {
      PackedIsPackable(v, p, queue, i + 1, limit);
    } else {
      var p' := Tried(v, p, queue[i]);
      forall j | 0 <= j < |p'.txs| ensures Stands(v.number, v.maxLimit, v.keys, p'.txs, j) {
        if j < |p.txs| { assert Stands(v.number, v.maxLimit, v.keys, p.txs, j); }
      }
      if p'.good < limit {
        PackedIsPackable(v, p', queue, i + 1, limit);
        var q := Packed(v, p', queue, i + 1, limit);
        assert q.txs[..|p.txs|] == q.txs[..|p'.txs|][..|p.txs|];
      }
    }
  }

  /**
   A transaction that would pass and is not refused by the executive gets
   in, unless the limit stops the loop before it.
   */
  lemma {:induction false} NothingOverlooked(v: View, p: Packing, queue: seq<Tx>, i: nat, limit: nat, t: Tx)
    requires i <= |queue| && t in queue[i..]
    requires BlockLimitOk(v.number, v.maxLimit, t) && NonceOk(v.keys, t)
    requires forall txs :: v.fate(txs, t) == Good
    ensures var q := Packed(v, p, queue, i, limit);
            HasHash(q.txs, t.hash) || HasKey(q.txs, KeyOf(t)) || q.good >= limit
    decreases |queue| - i
  {
    if HasHash(p.txs, queue[i].hash) {
      if queue[i] == t {
        Grows(v, p, queue, i + 1, limit);
      } else {
        NothingOverlooked(v, p, queue, i + 1, limit, t);
      }
    } else {
      var p' := Tried(v, p, queue[i]);
      if p'.good < limit {
        if queue[i] == t {
          if Admissible(v, p.txs, t) { assert p'.txs[|p.txs|] == t; assert HasHash(p'.txs, t.hash); }
          Grows(v, p', queue, i + 1, limit);
        } else {
          NothingOverlooked(v, p', queue, i + 1, limit, t);
        }
      }
    }
  }

  /**
   The transaction may go into a block that has `txs` so far: its limit is
   ahead and not too far, and its sender and id are new.
   */
  predicate Fits(v: View, txs: seq<Tx>, t: Tx) {
    && t.blockLimit != INVALID && v.number < t.blockLimit && t.blockLimit <= v.number + v.maxLimit
    && t.randomid != INVALID && (t.sender, t.randomid) !in v.keys
    && forall p :: 0 <= p < |txs| ==> !(txs[p].sender == t.sender && txs[p].randomid == t.randomid)
  }

  /**
   Tried when the block had its first `n` transactions, this one ended as
   `out`; what does not fit ends as dropped.
   */
  predicate EndedAt(v: View, txs: seq<Tx>, t: Tx, out: Fate, n: nat) {
    n <= |txs| && if Fits(v, txs[..n], t) then v.fate(txs[..n], t) == out else out == Drop
  }

  ghost predicate Ended(v: View, txs: seq<Tx>, t: Tx, out: Fate) {
    exists n: nat :: EndedAt(v, txs, t, out, n)
  }

  /** What a list has got are the hashes of transactions of the queue that ended so. */
  ghost predicate Listed(v: View, txs: seq<Tx>, queue: seq<Tx>, before: seq<nat>, after: seq<nat>, out: Fate) {
    && |before| <= |after| && after[..|before|] == before
    && forall k :: |before| <= k < |after| ==>
         exists j :: 0 <= j < |queue| && queue[j].hash == after[k] && Ended(v, txs, queue[j], out)
  }

  /** In the block, dropped, postponed, or left where it is. */
  ghost predicate Disposed(v: View, q: Packing, t: Tx) {
    || HasHash(q.txs, t.hash) || t.hash in q.dropped || t.hash in q.future || Ended(v, q.txs, t, Leave)
  }

  /**
   What packing makes of the queue: the dropped and the postponed hashes are those of transactions that ended so, and
   every transaction up to where the loop stops, which it does at the limit only, is disposed of.
   */
  lemma {:induction false} PackedAccounts(v: View, p: Packing, queue: seq<Tx>, i: nat, limit: nat) returns (end: nat)
    requires i <= |queue|
    ensures var q := Packed(v, p, queue, i, limit);
            && |p.txs| <= |q.txs| && q.txs[..|p.txs|] == p.txs
            && Listed(v, q.txs, queue, p.dropped, q.dropped, Drop)
            && Listed(v, q.txs, queue, p.future, q.future, Future)
            && i <= end <= |queue| && (end < |queue| ==> q.good >= limit)
            && forall k :: i <= k < end ==> Disposed(v, q, queue[k])
    decreases |queue| - i
  {
    end := i;
    if i < |queue| {
      var q := Packed(v, p, queue, i, limit);
      if HasHash(p.txs, queue[i].hash) {
        assert q == Packed(v, p, queue, i + 1, limit);
        end := PackedAccounts(v, p, queue, i + 1, limit);
        assert HasHash(q.txs, queue[i].hash) by { StillHas(p.txs, q.txs, queue[i].hash); }
      } else {
        var p' := Tried(v, p, queue[i]);
        end := i + 1;
        if p'.good < limit {
          assert q == Packed(v, p', queue, i + 1, limit);
          end := PackedAccounts(v, p', queue, i + 1, limit);
        }
        TriedAccounts(v, p, queue, i, p', q);
      }
    }
  }

  lemma StillHas(txs: seq<Tx>, more: seq<Tx>, h: nat)
    requires |txs| <= |more| && more[..|txs|] == txs && HasHash(txs, h)
    ensures HasHash(more, h)
  {
    var p :| 0 <= p < |txs| && txs[p].hash == h;
    assert more[p] == more[..|txs|][p];
  }

  /** One transaction tried, and the rest of the packing after it. */
  lemma TriedAccounts(v: View, p: Packing, queue: seq<Tx>, i: nat, p': Packing, q: Packing)
    requires i < |queue| && p' == Tried(v, p, queue[i])
    requires |p'.txs| <= |q.txs| && q.txs[..|p'.txs|] == p'.txs
    requires Listed(v, q.txs, queue, p'.dropped, q.dropped, Drop)
    requires Listed(v, q.txs, queue, p'.future, q.future, Future)
    ensures |p.txs| <= |q.txs| && q.txs[..|p.txs|] == p.txs
    ensures Listed(v, q.txs, queue, p.dropped, q.dropped, Drop) && Listed(v, q.txs, queue, p.future, q.future, Future)
    ensures Disposed(v, q, queue[i])
  {
    var t := queue[i];
    assert q.txs[..|p.txs|] == q.txs[..|p'.txs|][..|p.txs|] == p.txs;
    assert Admissible(v, p.txs, t) <==> Fits(v, p.txs, t);
    if p'.txs == p.txs + [t] { assert p'.txs[|p.txs|].hash == t.hash; StillHas(p'.txs, q.txs, t.hash); }
    if p'.dropped == p.dropped + [t.hash] {
      assert EndedAt(v, q.txs, t, Drop, |p.txs|);
      OneListed(v, q.txs, queue, i, p.dropped, q.dropped, Drop);
    }
    if p'.future == p.future + [t.hash] {
      assert EndedAt(v, q.txs, t, Future, |p.txs|);
      OneListed(v, q.txs, queue, i, p.future, q.future, Future);
    }
    if p' == p { assert EndedAt(v, q.txs, t, Leave, |p.txs|); }
  }

  lemma OneListed(v: View, txs: seq<Tx>, queue: seq<Tx>, i: nat, before: seq<nat>, after: seq<nat>, out: Fate)
    requires i < |queue| && Ended(v, txs, queue[i], out)
    requires Listed(v, txs, queue, before + [queue[i].hash], after, out)
    ensures Listed(v, txs, queue, before, after, out) && queue[i].hash in after
  {
    var n := |before|;
    assert after[..n] == after[..n + 1][..n] == before;
    assert after[n] == after[..n + 1][n] == queue[i].hash;
  }

  lemma {:induction false} Grows(v: View, p: Packing, queue: seq<Tx>, i: nat, limit: nat)
    requires i <= |queue|
    ensures var q := Packed(v, p, queue, i, limit);
            forall k :: 0 <= k < |p.txs| ==> k < |q.txs| && q.txs[k] == p.txs[k]
    decreases |queue| - i
  {
    if i < |queue| {
      if HasHash(p.txs, queue[i].hash) {
        assert Packed(v, p, queue, i, limit) == Packed(v, p, queue, i + 1, limit);
        Grows(v, p, queue, i + 1, limit);
      } else {
        var p' := Tried(v, p, queue[i]);
        if p'.good < limit { Grows(v, p', queue, i + 1, limit); }
      }
    }
  }

  // ----- Chains of packed blocks -----

  datatype Node = Node(chain: seq<seq<Tx>>, cache: Cache)

  datatype Event = Seal(block: seq<Tx>) | SideImport(block: seq<Tx>) | Rebuild

  /**
   A sealed block was packed against this node's own cache; import then updates the cache by one block. An imported
   block that does not become the head only drops its keys.
   */
  ghost predicate Next(s: Node, e: Event, s': Node, maxBlocks: nat, maxLimit: nat)
    requires |s.chain| > 0
  {
    match e
    case Seal(block) =>
      && Packable(|s.chain| - 1, maxLimit, s.cache.keys, block)
      && s' == Node(s.chain + [block], Grown(s.cache, s.chain, maxBlocks, block))
    case SideImport(block) => s' == s.(cache := s.cache.(keys := s.cache.keys - Keys(block)))
    case Rebuild => s' == s.(cache := Updated(s.cache, s.chain, maxBlocks, true))
  }

  ghost predicate Packed1(chain: seq<seq<Tx>>, maxBlocks: nat, maxLimit: nat, j: nat)
    requires 0 < j < |chain|
  {
    Packable(j - 1, maxLimit, Window(chain[..j], maxBlocks), chain[j])
  }

  /** Every block after an empty genesis was packed against the exact window below it. */
  ghost predicate Sound(chain: seq<seq<Tx>>, maxBlocks: nat, maxLimit: nat) {
    && |chain| > 0 && chain[0] == []
    && forall j :: 0 < j < |chain| ==> Packed1(chain, maxBlocks, maxLimit, j)
  }

  /** Within maxBlocks + 1 blocks no key comes back. */
  lemma KeysFarApart(chain: seq<seq<Tx>>, maxBlocks: nat, maxLimit: nat, i: nat, j: nat, t: Tx, u: Tx)
    requires Sound(chain, maxBlocks, maxLimit) && i < j < |chain| && t in chain[i] && u in chain[j]
    requires KeyOf(t) == KeyOf(u)
    ensures j - i > maxBlocks + 1
  {
    assert Packed1(chain, maxBlocks, maxLimit, j);
    var k :| 0 <= k < |chain[j]| && chain[j][k] == u;
    assert Stands(j - 1, maxLimit, Window(chain[..j], maxBlocks), chain[j], k);
    assert t in chain[..j][i];
  }

  /**
   No transaction is ever included twice, in one block or in two, as long
   as limits reach at most two blocks past the window.
   */
  lemma NeverTwice(chain: seq<seq<Tx>>, maxBlocks: nat, maxLimit: nat, i: nat, p: nat, j: nat, q: nat)
    requires Sound(chain, maxBlocks, maxLimit) && maxLimit <= maxBlocks + 2
    requires i < |chain| && p < |chain[i]| && j < |chain| && q < |chain[j]| && (i, p) != (j, q)
    ensures chain[i][p] != chain[j][q]
  {
    if i == j {
      var last := if p < q then q else p;
      assert Packed1(chain, maxBlocks, maxLimit, j);
      assert Stands(j - 1, maxLimit, Window(chain[..j], maxBlocks), chain[j], last);
    } else if chain[i][p] == chain[j][q] {
      var lo, hi := if i < j then i else j, if i < j then j else i;
      LimitsNear(chain, maxBlocks, maxLimit, lo, hi, chain[i][p]);
      KeysFarApart(chain, maxBlocks, maxLimit, lo, hi, chain[i][p], chain[i][p]);
    }
  }

  /** A transaction's block limit keeps its possible places less than maxLimit blocks apart. */
  lemma LimitsNear(chain: seq<seq<Tx>>, maxBlocks: nat, maxLimit: nat, i: nat, j: nat, t: Tx)
    requires Sound(chain, maxBlocks, maxLimit) && i < j < |chain| && t in chain[i] && t in chain[j]
    ensures j - i < maxLimit
  {
    assert Packed1(chain, maxBlocks, maxLimit, i) && Packed1(chain, maxBlocks, maxLimit, j);
    var k :| 0 <= k < |chain[i]| && chain[i][k] == t;
    var l :| 0 <= l < |chain[j]| && chain[j][l] == t;
    assert Stands(i - 1, maxLimit, Window(chain[..i], maxBlocks), chain[i], k);
    assert Stands(j - 1, maxLimit, Window(chain[..j], maxBlocks), chain[j], l);
  }

  ghost predicate Inv(s: Node, maxBlocks: nat, maxLimit: nat) {
    Sound(s.chain, maxBlocks, maxLimit) && Exact(s.cache, s.chain, maxBlocks)
  }

  /**
   An import that does not become the head still drops its keys: the window
   survives only if none of them was in it.
   */
  lemma SideImportIsExactIff(c: Cache, chain: seq<seq<Tx>>, maxBlocks: nat, block: seq<Tx>)
    requires |chain| > 0 && Exact(c, chain, maxBlocks)
    ensures Exact(c.(keys := c.keys - Keys(block)), chain, maxBlocks) <==> Window(chain, maxBlocks) !! Keys(block)
  {
    var left := c.keys - Keys(block);
    assert left == c.keys <==> c.keys !! Keys(block) by {
      forall k | k in c.keys && k in Keys(block) ensures k !in left {}
    }
  }

  /** A side import has no key in common with the window below it. */
  ghost predicate Apart(s: Node, e: Event, maxBlocks: nat)
    requires |s.chain| > 0
  {
    e.SideImport? ==> Window(s.chain, maxBlocks) !! Keys(e.block)
  }

  /**
   The cache stays the exact window because the chain repeats no key
   near, and the chain repeats none because the cache is exact.
   */
  lemma NextKeeps(s: Node, e: Event, s': Node, maxBlocks: nat, maxLimit: nat)
    requires Inv(s, maxBlocks, maxLimit) && Next(s, e, s', maxBlocks, maxLimit) && Apart(s, e, maxBlocks)
    ensures Inv(s', maxBlocks, maxLimit)
  {
    match e
    case SideImport(block) =>
      SideImportIsExactIff(s.cache, s.chain, maxBlocks, block);
    case Rebuild =>
      RebuildIsExact(s.cache, s.chain, maxBlocks);
    case Seal(block) =>
      var start := StartAt(|s.chain|, maxBlocks);
      forall k | k in KeysIn(s.chain, s.cache.startblk, start) * KeysIn(s.chain, Max(1, start), |s.chain|)
        ensures false
      {
        var i, t :| s.cache.startblk <= i < start && t in s.chain[i] && KeyOf(t) == k;
        var j, u :| Max(1, start) <= j < |s.chain| && u in s.chain[j] && KeyOf(u) == k;
        KeysFarApart(s.chain, maxBlocks, maxLimit, i, j, t, u);
        assert false;
      }
      GrowthIsRebuild(s.cache, s.chain, maxBlocks, block);
      forall j | 0 < j < |s'.chain| ensures Packed1(s'.chain, maxBlocks, maxLimit, j) {
        if j < |s.chain| {
          assert Packed1(s.chain, maxBlocks, maxLimit, j);
          assert s'.chain[..j] == s.chain[..j];
        } else {
          assert s'.chain[..j] == s.chain;
        }
      }
  }

  ghost predicate Run(r: seq<Node>, es: seq<Event>, maxBlocks: nat, maxLimit: nat) {
    && |r| == |es| + 1 && r[0] == Node([[]], Cache({}, 0, 0))
    && forall k :: 0 <= k < |es| ==> StepAt(r, es, maxBlocks, maxLimit, k)
  }

  ghost predicate StepAt(r: seq<Node>, es: seq<Event>, maxBlocks: nat, maxLimit: nat, k: nat)
    requires k < |es| && |r| == |es| + 1
  {
    |r[k].chain| > 0 && Next(r[k], es[k], r[k + 1], maxBlocks, maxLimit)
  }

  ghost predicate ApartAt(r: seq<Node>, es: seq<Event>, maxBlocks: nat, k: nat)
    requires k < |es| && |r| == |es| + 1
  {
    |r[k].chain| > 0 && Apart(r[k], es[k], maxBlocks)
  }

  /** In a run whose side imports stay clear of the window, every chain is sound and every cache exact. */
  lemma {:induction false} EveryRunExact(r: seq<Node>, es: seq<Event>, maxBlocks: nat, maxLimit: nat, n: nat)
    requires Run(r, es, maxBlocks, maxLimit) && n <= |es|
    requires forall k :: 0 <= k < n ==> ApartAt(r, es, maxBlocks, k)
    ensures Inv(r[n], maxBlocks, maxLimit)
  {
    if n > 0 {
      EveryRunExact(r, es, maxBlocks, maxLimit, n - 1);
      assert StepAt(r, es, maxBlocks, maxLimit, n - 1) && ApartAt(r, es, maxBlocks, n - 1);
      NextKeeps(r[n - 1], es[n - 1], r[n], maxBlocks, maxLimit);
    }
  }

  ghost predicate ExactAt(r: seq<Node>, maxBlocks: nat, k: nat)
    requires k < |r|
  {
    |r[k].chain| > 0 && Exact(r[k].cache, r[k].chain, maxBlocks)
  }

  /** The cache is exact throughout a run exactly if no side import touches the window. */
  lemma RunExactIff(r: seq<Node>, es: seq<Event>, maxBlocks: nat, maxLimit: nat)
    requires Run(r, es, maxBlocks, maxLimit)
    ensures (forall k :: 0 <= k < |r| ==> ExactAt(r, maxBlocks, k))
            <==> (forall k :: 0 <= k < |es| ==> ApartAt(r, es, maxBlocks, k))
  {
    if forall k :: 0 <= k < |r| ==> ExactAt(r, maxBlocks, k) {
      forall k | 0 <= k < |es| ensures ApartAt(r, es, maxBlocks, k) {
        assert ExactAt(r, maxBlocks, k) && ExactAt(r, maxBlocks, k + 1) && StepAt(r, es, maxBlocks, maxLimit, k);
        if es[k].SideImport? { SideImportIsExactIff(r[k].cache, r[k].chain, maxBlocks, es[k].block); }
      }
    }
    if forall k :: 0 <= k < |es| ==> ApartAt(r, es, maxBlocks, k) {
      forall n | 0 <= n < |r| ensures ExactAt(r, maxBlocks, n) {
        EveryRunExact(r, es, maxBlocks, maxLimit, n);
      }
    }
  }

  /** What a side import can do: the transaction of block 1 arrives in a side block and is packed again in block 2. */
  lemma SideImportRepeats(maxBlocks: nat, maxLimit: nat) returns (r: seq<Node>, t: Tx)
    requires maxLimit >= 2
    ensures Run(r, [Seal([t]), SideImport([t]), Seal([t])], maxBlocks, maxLimit)
    ensures r[3].chain == [[], [t], [t]]
  {
    t := Tx(0, 0, 0, 2);
    var es := [Seal([t]), SideImport([t]), Seal([t])];
    var c0 := Cache({}, 0, 0);
    var c1 := Grown(c0, [[]], maxBlocks, [t]);
    var c2 := c1.(keys := c1.keys - Keys([t]));
    var c3 := Grown(c2, [[], [t]], maxBlocks, [t]);
    r := [Node([[]], c0), Node([[], [t]], c1), Node([[], [t]], c2), Node([[], [t], [t]], c3)];
    assert t in [t];
    assert Stands(0, maxLimit, c0.keys, [t], 0) && Stands(1, maxLimit, c2.keys, [t], 0);
    assert [[]] + [[t]] == [[], [t]] && [[], [t]] + [[t]] == [[], [t], [t]];
    assert StepAt(r, es, maxBlocks, maxLimit, 0);
    assert StepAt(r, es, maxBlocks, maxLimit, 1);
    assert StepAt(r, es, maxBlocks, maxLimit, 2);
  }

  // ----- The bound is tight -----

  /** A transaction in block 1, as many empty blocks as the window has, and the transaction again. */
  function Gap(t: Tx, maxBlocks: nat): seq<seq<Tx>> {
    seq(maxBlocks + 4, i => if i == 1 || i == maxBlocks + 3 then [t] else [])
  }

  lemma BoundIsTight(maxBlocks: nat, maxLimit: nat)
    requires maxBlocks + 3 <= maxLimit && maxBlocks + 3 < INVALID
    ensures var t := Tx(0, 0, 0, maxBlocks + 3);
            var c := Gap(t, maxBlocks);
            Sound(c, maxBlocks, maxLimit) && c[1] == c[maxBlocks + 3] == [t]
  {
    var t := Tx(0, 0, 0, maxBlocks + 3);
    var c := Gap(t, maxBlocks);
    forall j | 0 < j < |c| ensures Packed1(c, maxBlocks, maxLimit, j) {
      var number, keys, txs := j - 1, Window(c[..j], maxBlocks), c[j];
      forall i | 0 <= i < |txs| ensures Stands(number, maxLimit, keys, txs, i) {
        assert forall k :: 0 <= k < j ==> c[..j][k] == c[k];
      }
    }
  }
}
