/**
 The block queue as the source keeps it: sets and queues changed in place,
 with worklist loops. Each method is one critical section and does to the
 fields what the function of module BlockPipeline does.
 */
module BlockQueue {
  import opened BlockPipeline

  /** What import answers. */
  datatype ImportResult = AlreadyKnown | AlreadyInChain | BadChain | UnknownParent | Success

  class BlockQueue {
    var readySet: set<Hash>
    var drainingSet: set<Hash>
    var unknownSet: set<Hash>
    var unknown: seq<Block>
    var knownBad: set<Hash>
    var verified: seq<Block>
    var verifying: seq<Job>
    var unverified: seq<Block>
    var chain: set<Hash>

    ghost function State(): Queue
      reads this
    {
      Queue(readySet, drainingSet, unknownSet, unknown, knownBad, verified, verifying, unverified, chain)
    }

    constructor (chain: set<Hash>)
      ensures State() == Empty(chain)
    {
      readySet, drainingSet, unknownSet, knownBad := {}, {}, {}, {};
      unknown, verified, verifying, unverified := [], [], [], [];
      this.chain := chain;
    }

    /** Takes out every block that waits for `parent`. */
    method RemoveByKeyEqual(parent: Hash) returns (removed: seq<Block>)
      modifies this`unknown
      ensures removed == ChildrenOf(old(unknown), parent)
      ensures unknown == OthersThan(old(unknown), parent)
    {
      removed := [];
      var kept := [];
      var i := 0;
      while i < |unknown|
        invariant i <= |unknown|
        invariant removed + ChildrenOf(unknown[i..], parent) == ChildrenOf(unknown, parent)
        invariant kept + OthersThan(unknown[i..], parent) == OthersThan(unknown, parent)
      {
        if unknown[i].parent == parent {
          removed := removed + [unknown[i]];
        } else {
          kept := kept + [unknown[i]];
        }
        i := i + 1;
      }
      unknown := kept;
    }

    /** Blocks of `s` enter the unverified queue and the ready set, and stop waiting. */
    method Ready(s: seq<Block>, work: seq<Hash>) returns (work': seq<Hash>)
      modifies this`unverified, this`unknownSet, this`readySet
      ensures unverified == old(unverified) + s && work' == work + HashList(s)
      ensures unknownSet == old(unknownSet) - Hashes(s) && readySet == old(readySet) + Hashes(s)
    {
      work' := work;
      var i := 0;
      while i < |s|
        invariant i <= |s|
        invariant unverified == old(unverified) + s[..i] && work' == work + HashList(s[..i])
        invariant unknownSet == old(unknownSet) - Hashes(s[..i]) && readySet == old(readySet) + Hashes(s[..i])
      {
        HashesNext(s, i);
        unverified := unverified + [s[i]];
        unknownSet := unknownSet - {s[i].hash};
        readySet := readySet + {s[i].hash};
        work' := work' + [s[i].hash];
        i := i + 1;
      }
      assert s[..i] == s;
    }

    method Bad(s: seq<Block>, work: seq<Hash>) returns (work': seq<Hash>)
      modifies this`unknownSet, this`knownBad
      ensures work' == work + HashList(s)
      ensures unknownSet == old(unknownSet) - Hashes(s) && knownBad == old(knownBad) + Hashes(s)
    {
      work' := work;
      var i := 0;
      while i < |s|
        invariant i <= |s|
        invariant work' == work + HashList(s[..i])
        invariant unknownSet == old(unknownSet) - Hashes(s[..i]) && knownBad == old(knownBad) + Hashes(s[..i])
      {
        HashesNext(s, i);
        unknownSet := unknownSet - {s[i].hash};
        knownBad := knownBad + {s[i].hash};
        work' := work' + [s[i].hash];
        i := i + 1;
      }
      assert s[..i] == s;
    }

    /** The worklist loop over the descendants of a block that is ready. */
    method NoteReadyBlock(good: Hash)
      modifies this`unknown, this`unverified, this`unknownSet, this`readySet
      ensures State() == NoteReady(old(State()), good)
    {
      var work := [good];
      ghost var all, moved := Promote(unknown, work), [];
      PendingStart(unknown, work);
      while work != []
        invariant Pending(all, moved, unknown, work)
        invariant unverified == old(unverified) + moved
        invariant unknownSet == old(unknownSet) - Hashes(moved) && readySet == old(readySet) + Hashes(moved)
        decreases |unknown|, |work|
      {
        PendingStep(all, moved, unknown, work);
        var removed := RemoveByKeyEqual(work[0]);
        work := Ready(removed, work[1..]);
        HashesAppend(moved, removed);
        moved := moved + removed;
      }
      PendingEnd(all, moved, unknown);
    }

    /** The worklist loop over the descendants of a bad block. */
    method CollectBad(bad: Hash)
      modifies this`unknown, this`unknownSet, this`knownBad
      ensures State() == CollectUnknownBad(old(State()), bad)
    {
      var work := [bad];
      ghost var all, moved := Promote(unknown, work), [];
      PendingStart(unknown, work);
      while work != []
        invariant Pending(all, moved, unknown, work)
        invariant unknownSet == old(unknownSet) - Hashes(moved) && knownBad == old(knownBad) + Hashes(moved)
        decreases |unknown|, |work|
      {
        PendingStep(all, moved, unknown, work);
        var removed := RemoveByKeyEqual(work[0]);
        work := Bad(removed, work[1..]);
        HashesAppend(moved, removed);
        moved := moved + removed;
      }
      PendingEnd(all, moved, unknown);
    }

    /** Takes a block in and tells what became of it. */
    method ImportBlock(b: Block) returns (answer: ImportResult)
      requires LoopsIdle(State(), b)
      modifies this
      ensures State() == Import(old(State()), b)
      ensures answer == AlreadyKnown <==> Known(old(State()), b.hash)
      ensures answer == AlreadyInChain <==> !Known(old(State()), b.hash) && b.hash in chain
      ensures answer == BadChain <==> b.hash !in old(knownBad) && b.hash in knownBad
      ensures answer == UnknownParent <==> b.hash !in old(unknownSet) && b.hash in unknownSet
      ensures answer == Success <==> b.hash !in old(readySet) && b.hash in readySet
    {
      if b.hash in readySet || b.hash in drainingSet || b.hash in unknownSet || b.hash in knownBad {
        return AlreadyKnown;
      }
      if b.hash in chain { return AlreadyInChain; }
      if b.parent in knownBad {
        knownBad := knownBad + {b.hash};
        CollectBad(b.hash);
        return BadChain;
      }
      if b.parent !in readySet && b.parent !in drainingSet && b.parent !in chain {
        unknown := unknown + [b];
        unknownSet := unknownSet + {b.hash};
        return UnknownParent;
      }
      unverified := unverified + [b];
      readySet := readySet + {b.hash};
      NoteReadyBlock(b.hash);
      return Success;
    }

    /** A verifier thread takes the next block to work on. */
    method TakeWork() returns (work: Block)
      requires unverified != []
      modifies this`unverified, this`verifying
      ensures State() == Take(old(State())) && [work] + unverified == old(unverified)
      ensures verifying == old(verifying) + [Job(work, false)]
    {
      work := unverified[0];
      unverified := unverified[1..];
      verifying := verifying + [Job(work, false)];
    }

    method PassOn(b: Block)
      modifies this`readySet, this`knownBad, this`verified
      ensures State() == Pass(old(State()), b)
    {
      if b.parent in knownBad {
        readySet := readySet - {b.hash};
        knownBad := knownBad + {b.hash};
      } else {
        verified := verified + [b];
      }
    }

    /** The finished blocks in front leave the verifying queue: `bads` tells which of them as bad. */
    method DrainVerifiedBlocks() returns (ghost n: nat, ghost bads: seq<bool>)
      modifies this`readySet, this`knownBad, this`verified, this`verifying
      ensures State() == DrainVerified(old(State()))
      ensures FinishedFront(old(verifying), n)
      ensures Sorted(old(State()), State(), Blocks(old(verifying)[..n]), bads, old(verifying)[n..])
    {
      n, bads := DrainVerifiedSorts(State());
      while verifying != [] && verifying[0].done
        invariant DrainVerified(State()) == DrainVerified(old(State()))
        decreases |verifying|
      {
        var b := verifying[0].block;
        verifying := verifying[1..];
        PassOn(b);
      }
    }

    /** The thread working on entry `i` has verified its block. */
    method DeliverWork(i: nat) returns (isReady: bool, ghost n: nat, ghost bads: seq<bool>)
      requires Working(State(), i)
      modifies this`readySet, this`knownBad, this`verified, this`verifying
      ensures State() == Deliver(old(State()), i) && (isReady <==> i == 0)
      ensures i > 0 ==>
                verifying == old(verifying)[i := Job(old(verifying)[i].block, true)]
                && verified == old(verified) && knownBad == old(knownBad) && readySet == old(readySet)
      ensures i == 0 ==>
                && FinishedFront(old(verifying)[1..], n)
                && Sorted(old(State()), State(), Blocks(old(verifying)[..n + 1]), bads, old(verifying)[n + 1..])
                && (bads[0] <==> old(verifying)[0].block.parent in old(knownBad))
    {
      n, bads := DeliverSorts(State(), i);
      if i == 0 { FirstJudged(State(), n, bads); }
      if i == 0 {
        var b := verifying[0].block;
        verifying := verifying[1..];
        PassOn(b);
        var _, _ := DrainVerifiedBlocks();
        isReady := true;
      } else {
        verifying := verifying[i := verifying[i].(done := true)];
        isReady := false;
      }
    }

    /** The thread working on entry `i` has found its block bad. */
    method RejectWork(i: nat) returns (ghost q1: Queue, ghost n: nat, ghost bads: seq<bool>)
      requires Working(State(), i)
      modifies this`readySet, this`knownBad, this`verified, this`verifying
      ensures State() == Reject(old(State()), i)
      ensures var h := old(verifying)[i].block.hash;
              q1 == old(State()).(ready := old(readySet) - {h}, knownBad := old(knownBad) + {h},
                                  verifying := old(verifying)[..i] + old(verifying)[i + 1..])
      ensures FinishedFront(q1.verifying, n)
      ensures Sorted(q1, State(), Blocks(q1.verifying[..n]), bads, q1.verifying[n..])
    {
      q1, n, bads := RejectSorts(State(), i);
      var h := verifying[i].block.hash;
      readySet := readySet - {h};
      knownBad := knownBad + {h};
      verifying := verifying[..i] + verifying[i + 1..];
      var _, _ := DrainVerifiedBlocks();
    }

    /** Hands out at most `max` blocks, in the order of the queue. */
    method DrainBatch(max: nat) returns (out: seq<Block>)
      modifies this`verified, this`drainingSet, this`readySet
      ensures State() == Drain(old(State()), max) && out == Batch(old(State()), max)
      ensures old(verified) == out + verified
      ensures |out| == if old(drainingSet) != {} then 0 else if max < |old(verified)| then max else |old(verified)|
      ensures drainingSet == old(drainingSet) + Hashes(out) && readySet == old(readySet) - Hashes(out)
    {
      out := [];
      if drainingSet == {} {
        var k := if max < |verified| then max else |verified|;
        out := verified[..k];
        verified := verified[k..];
        var i := 0;
        while i < |out|
          invariant i <= |out| && verified == old(verified)[|out|..]
          invariant drainingSet == old(drainingSet) + Hashes(out[..i]) && readySet == old(readySet) - Hashes(out[..i])
        {
          HashesNext(out, i);
          drainingSet := drainingSet + {out[i].hash};
          readySet := readySet - {out[i].hash};
          i := i + 1;
        }
        assert out[..i] == out;
      }
      assert drainingSet == old(drainingSet) + Hashes(out) && readySet == old(readySet) - Hashes(out);
      assert verified == old(verified)[|out|..];
    }

    method FinishDrain() returns (more: bool)
      requires drainingSet <= chain
      modifies this`drainingSet
      ensures State() == DoneDrain(old(State())) && (more <==> readySet != {})
    {
      drainingSet := {};
      more := readySet != {};
    }
  }

  /** `moved` has left the map, and the worklist still has the rest of `all` to do. */
  ghost predicate Pending(all: (seq<Block>, seq<Block>), moved: seq<Block>, unknown: seq<Block>, work: seq<Hash>) {
    all == (moved + Promote(unknown, work).0, Promote(unknown, work).1)
  }

  lemma PendingStart(unknown: seq<Block>, work: seq<Hash>)
    ensures Pending(Promote(unknown, work), [], unknown, work)
  {
    assert [] + Promote(unknown, work).0 == Promote(unknown, work).0;
  }

  lemma PendingStep(all: (seq<Block>, seq<Block>), moved: seq<Block>, unknown: seq<Block>, work: seq<Hash>)
    requires Pending(all, moved, unknown, work) && work != []
    ensures var removed, others := ChildrenOf(unknown, work[0]), OthersThan(unknown, work[0]);
            && Pending(all, moved + removed, others, work[1..] + HashList(removed))
            && |removed| + |others| == |unknown|
  {
    ChildrenMeaning(unknown, work[0]);
    var removed := ChildrenOf(unknown, work[0]);
    var m := Promote(OthersThan(unknown, work[0]), work[1..] + HashList(removed)).0;
    assert moved + (removed + m) == moved + removed + m;
  }

  lemma PendingEnd(all: (seq<Block>, seq<Block>), moved: seq<Block>, unknown: seq<Block>)
    requires Pending(all, moved, unknown, [])
    ensures all == (moved, unknown)
  {
    assert moved + [] == moved;
  }

  lemma HashesNext(s: seq<Block>, i: nat)
    requires i < |s|
    ensures Hashes(s[..i + 1]) == Hashes(s[..i]) + {s[i].hash}
    ensures HashList(s[..i + 1]) == HashList(s[..i]) + [s[i].hash]
  {
    assert s[..i + 1] == s[..i] + [s[i]];
    HashesAppend(s[..i], [s[i]]);
    OneHash(s[i]);
  }
}
