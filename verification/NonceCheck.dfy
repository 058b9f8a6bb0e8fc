/**
 The nonce cache and the packing loop as they run (libcv/NonceCheck.cpp, Block::sync in libcv/Block.cpp).
 */
module NonceCheck {
  import opened ReplayWindow

  class NonceCache {
    const maxBlocks: nat
    var cache: set<Key>
    var startblk: nat
    var endblk: nat

    ghost function State(): Cache
      reads this
    {
      Cache(cache, startblk, endblk)
    }

    /** init: a rebuild from nothing. */
    constructor (chain: seq<seq<Tx>>, maxBlocks: nat)
      requires |chain| > 0
      ensures this.maxBlocks == maxBlocks && Exact(State(), chain, maxBlocks)
    {
      this.maxBlocks := maxBlocks;
      cache, startblk, endblk := {}, 0, 0;
      new;
      UpdateCache(chain, true);
    }

    method Ok(t: Tx, needInsert: bool) returns (fine: bool)
      modifies this`cache
      ensures fine <==> (t.sender, t.randomid) !in old(cache)
      ensures cache == if fine && needInsert then old(cache) + {(t.sender, t.randomid)} else old(cache)
    {
      if KeyOf(t) in cache { return false; }
      if needInsert { cache := cache + {KeyOf(t)}; }
      return true;
    }

    method DelCache(txs: seq<Tx>)
      modifies this`cache
      ensures cache == old(cache) - Keys(txs)
    {
      var i := 0;
      while i < |txs|
        invariant 0 <= i <= |txs| && cache == old(cache) - Keys(txs[..i])
      {
        KeysNext(txs, i);
        if KeyOf(txs[i]) in cache { cache := cache - {KeyOf(txs[i])}; }
        i := i + 1;
      }
      assert txs[..i] == txs;
    }

    method UpdateCache(chain: seq<seq<Tx>>, rebuild: bool)
      requires |chain| > 0
      modifies this
      ensures State() == Updated(old(State()), chain, maxBlocks, rebuild)
    {
      var last := |chain| - 1;
      var preStart, preEnd := startblk, endblk;
      endblk := last;
      startblk := if last > maxBlocks then last - maxBlocks else 0;
      if rebuild {
        cache := {};
        preEnd := 0;
      } else {
        Evict(chain, preStart);
      }
      var from := if preEnd + 1 > startblk then preEnd + 1 else startblk;
      AddFrom(chain, from);
    }

    method Evict(chain: seq<seq<Tx>>, preStart: nat)
      requires startblk <= |chain|
      modifies this`cache
      ensures cache == old(cache) - KeysIn(chain, preStart, startblk)
    {
      var i := preStart;
      while i < startblk
        invariant preStart <= i && (i <= startblk || i == preStart)
        invariant cache == old(cache) - KeysIn(chain, preStart, if i <= startblk then i else startblk)
      {
        DelCache(chain[i]);
        BlockNext(chain, preStart, i);
        i := i + 1;
      }
    }

    method AddFrom(chain: seq<seq<Tx>>, from: nat)
      modifies this`cache
      ensures cache == old(cache) + KeysIn(chain, from, |chain|)
    {
      var i := from;
      while i < |chain|
        invariant from <= i && (i <= |chain| || i == from)
        invariant cache == old(cache) + KeysIn(chain, from, if i <= |chain| then i else |chain|)
      {
        var txs, j := chain[i], 0;
        ghost var before := cache;
        while j < |txs|
          invariant 0 <= j <= |txs| && cache == before + Keys(txs[..j])
        {
          KeysNext(txs, j);
          if KeyOf(txs[j]) !in cache { cache := cache + {KeyOf(txs[j])}; }
          j := j + 1;
        }
        assert txs[..j] == txs;
        BlockNext(chain, from, i);
        i := i + 1;
      }
    }
  }

  lemma KeysNext(txs: seq<Tx>, i: nat)
    requires i < |txs|
    ensures Keys(txs[..i + 1]) == Keys(txs[..i]) + {KeyOf(txs[i])}
  {
    assert txs[..i + 1] == txs[..i] + [txs[i]];
  }

  lemma BlockNext(chain: seq<seq<Tx>>, lo: nat, i: nat)
    requires lo <= i < |chain|
    ensures KeysIn(chain, lo, i + 1) == KeysIn(chain, lo, i) + Keys(chain[i])
  {
  }

  /** The block being packed: its transactions in order and the set of their hashes. */
  class Block {
    var transactions: seq<Tx>
    var transactionSet: set<nat>

    ghost predicate Valid()
      reads this
    {
      forall h :: h in transactionSet <==> HasHash(transactions, h)
    }

    constructor ()
      ensures Valid() && transactions == []
    {
      transactions, transactionSet := [], {};
    }

    /** The second look at the block itself. */
    method Repeats(t: Tx) returns (found: bool)
      ensures found <==> HasKey(transactions, KeyOf(t))
    {
      var p := 0;
      while p < |transactions|
        invariant 0 <= p <= |transactions| && forall q :: 0 <= q < p ==> KeyOf(transactions[q]) != KeyOf(t)
      {
        if transactions[p].sender == t.sender && transactions[p].randomid == t.randomid { return true; }
        p := p + 1;
      }
      return false;
    }

    method Append(t: Tx)
      requires Valid()
      modifies this
      ensures Valid() && transactions == old(transactions) + [t]
    {
      transactions := transactions + [t];
      transactionSet := transactionSet + {t.hash};
      assert forall p :: 0 <= p < |old(transactions)| ==> transactions[p] == old(transactions)[p];
      assert transactions[|transactions| - 1] == t;
    }

    /** The loop of sync: `v` is the chain it packs against, `limit` the transactions still wanted. */
    method Sync(v: View, queue: seq<Tx>, limit: nat) returns (dropped: seq<nat>, future: seq<nat>, more: bool)
      requires Valid()
      modifies this
      ensures Valid()
      ensures var p := Packed(v, Packing(old(transactions), [], [], 0), queue, 0, limit);
              transactions == p.txs && dropped == p.dropped && future == p.future && more == (p.good >= limit)
      ensures Listed(v, transactions, queue, [], dropped, Drop) && Listed(v, transactions, queue, [], future, Future)
    {
      var _ := PackedAccounts(v, Packing(transactions, [], [], 0), queue, 0, limit);
      dropped, future := [], [];
      var good, i := 0, 0;
      ghost var first := Packing(transactions, [], [], 0);
      while i < |queue|
        invariant 0 <= i <= |queue| && Valid()
        invariant Packed(v, first, queue, 0, limit) ==
                    Packed(v, Packing(transactions, dropped, future, good), queue, i, limit)
      {
        var t := queue[i];
        i := i + 1;
        if t.hash !in transactionSet {
          var repeats := Repeats(t);
          if !BlockLimitOk(v.number, v.maxLimit, t) || !NonceOk(v.keys, t) || repeats {
            dropped := dropped + [t.hash];
          } else {
            match v.fate(transactions, t)
            case Good => Append(t); good := good + 1;
            case Drop => dropped := dropped + [t.hash];
            case Future => future := future + [t.hash];
            case Leave =>
          }
          if good >= limit {
            break;
          }
        }
      }
      more := good >= limit;
    }
  }
}
