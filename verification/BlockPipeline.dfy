/**
 The block queue as a state machine (libcv/BlockQueue.cpp): blocks wait for
 unknown parents, are verified by any number of threads, and are drained for
 import into the chain. Each function is one critical section.
 */
module BlockPipeline {

  type Hash = nat

  datatype Block = Block(hash: Hash, parent: Hash)

  /** A block under verification; `done` once its thread has delivered the result. */
  datatype Job = Job(block: Block, done: bool)

  datatype Queue = Queue(
    ready: set<Hash>,
    draining: set<Hash>,
    unknownSet: set<Hash>,
    unknown: seq<Block>,
    knownBad: set<Hash>,
    verified: seq<Block>,
    verifying: seq<Job>,
    unverified: seq<Block>,
    chain: set<Hash>)

  function Empty(chain: set<Hash>): Queue {
    Queue({}, {}, {}, [], {}, [], [], [], chain)
  }

  // ----- The map from unknown parents to blocks -----

  function ChildrenOf(unknown: seq<Block>, p: Hash): seq<Block> {
    if unknown == [] then []
    else (if unknown[0].parent == p then [unknown[0]] else []) + ChildrenOf(unknown[1..], p)
  }

  function OthersThan(unknown: seq<Block>, p: Hash): seq<Block> {
    if unknown == [] then []
    else (if unknown[0].parent == p then [] else [unknown[0]]) + OthersThan(unknown[1..], p)
  }

  function Hashes(s: seq<Block>): set<Hash> { set i | 0 <= i < |s| :: s[i].hash }

  function HashList(s: seq<Block>): seq<Hash> { seq(|s|, i requires 0 <= i < |s| => s[i].hash) }

  predicate Distinct(s: seq<Block>) {
    forall i, j :: 0 <= i < j < |s| ==> s[i].hash != s[j].hash
  }

  /** `s` is split into `a` and `b`, which share no hash if `s` repeats none. */
  ghost predicate Split(s: seq<Block>, a: seq<Block>, b: seq<Block>) {
    && |a| + |b| == |s|
    && (forall x :: x in s <==> x in a || x in b)
    && (Distinct(s) ==> Distinct(a) && Distinct(b) && forall x, y :: x in a && y in b ==> x.hash != y.hash)
  }

  lemma {:induction false} ChildrenMeaning(unknown: seq<Block>, p: Hash)
    ensures Split(unknown, ChildrenOf(unknown, p), OthersThan(unknown, p))
    ensures forall x :: x in ChildrenOf(unknown, p) ==> x.parent == p
    ensures forall x :: x in OthersThan(unknown, p) ==> x.parent != p
  {
    if unknown != [] {
      var tail := unknown[1..];
      ChildrenMeaning(tail, p);
      assert unknown == [unknown[0]] + tail;
      assert Distinct(unknown) ==> Distinct(tail) && forall x :: x in tail ==> x.hash != unknown[0].hash;
    }
  }

  lemma SplitAgain(s: seq<Block>, a: seq<Block>, others: seq<Block>, moved: seq<Block>, rest: seq<Block>)
    requires Split(s, a, others) && Split(others, moved, rest)
    ensures Split(s, a + moved, rest)
  {
    if Distinct(s) {
      forall i, j | 0 <= i < j < |a + moved| ensures (a + moved)[i].hash != (a + moved)[j].hash {
        if i < |a| <= j { assert a[i] in a && moved[j - |a|] in others; }
      }
    }
  }

  /** The worklist loop: what leaves the map, in order, and what stays. */
  function Promote(unknown: seq<Block>, work: seq<Hash>): (r: (seq<Block>, seq<Block>))
    decreases |unknown|, |work|
  {
    if work == [] then ([], unknown)
    else
      var removed := ChildrenOf(unknown, work[0]);
      ChildrenMeaning(unknown, work[0]);
      var (moved, rest) := Promote(OthersThan(unknown, work[0]), work[1..] + HashList(removed));
      (removed + moved, rest)
  }

  /** `h` is a block of the map that `k` steps to parents in the map take to a root. */
  ghost predicate Descends(unknown: seq<Block>, roots: set<Hash>, b: Block, k: nat)
    decreases k
  {
    b in unknown &&
    (b.parent in roots ||
     (k > 0 && exists x :: x in unknown && x.hash == b.parent && Descends(unknown, roots, x, k - 1)))
  }

  ghost predicate Descendant(unknown: seq<Block>, roots: set<Hash>, b: Block) {
    exists k: nat :: Descends(unknown, roots, b, k)
  }

  /** Every block's parent is a root or moved before it. */
  predicate ParentsFirst(moved: seq<Block>, roots: set<Hash>) {
    forall i :: 0 <= i < |moved| ==> moved[i].parent in roots + Hashes(moved[..i])
  }

  /** Nothing that stays has a parent that is a root or has moved. */
  predicate Closed(rest: seq<Block>, gone: set<Hash>) {
    forall b :: b in rest ==> b.parent !in gone
  }

  function SetOf(s: seq<Hash>): set<Hash> { set x | x in s }

  lemma {:induction false} PromoteMeaning(unknown: seq<Block>, work: seq<Hash>)
    ensures var (moved, rest) := Promote(unknown, work);
            && Split(unknown, moved, rest)
            && ParentsFirst(moved, SetOf(work))
            && Closed(rest, SetOf(work) + Hashes(moved))
    decreases |unknown|, |work|
  {
    if work != [] {
      var removed, others := ChildrenOf(unknown, work[0]), OthersThan(unknown, work[0]);
      ChildrenMeaning(unknown, work[0]);
      var next := work[1..] + HashList(removed);
      PromoteMeaning(others, next);
      var (moved, rest) := Promote(others, next);
      var all := removed + moved;
      SplitAgain(unknown, removed, others, moved, rest);
      HashListSet(removed);
      assert SetOf(next) == SetOf(work[1..]) + Hashes(removed);
      assert SetOf(work) == SetOf(work[1..]) + {work[0]};
      PromoteOrder(removed, moved, work[0], SetOf(work[1..]));
      assert Hashes(all) == Hashes(removed) + Hashes(moved) by { HashesAppend(removed, moved); }
      forall b | b in rest ensures b.parent !in SetOf(work) + Hashes(all) {
        assert b in others;
      }
    }
  }

  lemma HashListSet(s: seq<Block>)
    ensures SetOf(HashList(s)) == Hashes(s)
  {
    forall h | h in Hashes(s) ensures h in HashList(s) {
      var i :| 0 <= i < |s| && s[i].hash == h;
      assert HashList(s)[i] == h;
    }
  }

  lemma OneHash(b: Block)
    ensures Hashes([b]) == {b.hash}
  {
    assert [b][0].hash in Hashes([b]);
  }

  lemma HashesAppend(a: seq<Block>, b: seq<Block>)
    ensures Hashes(a + b) == Hashes(a) + Hashes(b)
  {
    forall h | h in Hashes(a) + Hashes(b) ensures h in Hashes(a + b) {
      if h in Hashes(a) {
        var i :| 0 <= i < |a| && a[i].hash == h;
        assert (a + b)[i].hash == h;
      } else {
        var i :| 0 <= i < |b| && b[i].hash == h;
        assert (a + b)[|a| + i].hash == h;
      }
    }
  }

  lemma PromoteOrder(removed: seq<Block>, moved: seq<Block>, p: Hash, roots: set<Hash>)
    requires forall x :: x in removed ==> x.parent == p
    requires ParentsFirst(moved, roots + Hashes(removed))
    ensures ParentsFirst(removed + moved, roots + {p})
  {
    var all := removed + moved;
    forall i | 0 <= i < |all| ensures all[i].parent in roots + {p} + Hashes(all[..i]) {
      if i < |removed| {
        assert all[i] in removed;
      } else {
        var k := i - |removed|;
        assert all[..i] == removed + moved[..k];
        HashesAppend(removed, moved[..k]);
        assert moved[k].parent in roots + Hashes(removed) + Hashes(moved[..k]);
      }
    }
  }

  lemma {:induction false} MovedDescend(unknown: seq<Block>, moved: seq<Block>, roots: set<Hash>, i: nat)
    requires ParentsFirst(moved, roots) && (forall b :: b in moved ==> b in unknown) && i < |moved|
    ensures Descendant(unknown, roots, moved[i])
  {
    if moved[i].parent in roots {
      assert Descends(unknown, roots, moved[i], 0);
    } else {
      var j :| 0 <= j < |moved[..i]| && moved[..i][j].hash == moved[i].parent;
      MovedDescend(unknown, moved, roots, j);
      var k: nat :| Descends(unknown, roots, moved[j], k);
      assert Descends(unknown, roots, moved[i], k + 1);
    }
  }

  lemma {:induction false} DescendantsMove(unknown: seq<Block>, moved: seq<Block>, rest: seq<Block>,
      roots: set<Hash>, b: Block, k: nat)
    requires Descends(unknown, roots, b, k) && (forall x :: x in unknown <==> x in moved || x in rest)
    requires Closed(rest, roots + Hashes(moved))
    ensures b in moved
    decreases k
  {
    if b.parent !in roots {
      var x :| x in unknown && x.hash == b.parent && Descends(unknown, roots, x, k - 1);
      DescendantsMove(unknown, moved, rest, roots, x, k - 1);
      var i :| 0 <= i < |moved| && moved[i] == x;
      assert moved[i].hash in Hashes(moved);
    }
  }

  /** The worklist moves exactly the transitive descendants of the roots, on any parent graph. */
  lemma PromoteExact(unknown: seq<Block>, root: Hash, b: Block)
    ensures b in Promote(unknown, [root]).0 <==> Descendant(unknown, {root}, b)
  {
    var (moved, rest) := Promote(unknown, [root]);
    PromoteMeaning(unknown, [root]);
    assert SetOf([root]) == {root};
    if b in moved {
      var i :| 0 <= i < |moved| && moved[i] == b;
      MovedDescend(unknown, moved, {root}, i);
    }
    if Descendant(unknown, {root}, b) {
      var k: nat :| Descends(unknown, {root}, b, k);
      DescendantsMove(unknown, moved, rest, {root}, b, k);
    }
  }

  // ----- The critical sections -----

  function NoteReady(q: Queue, h: Hash): Queue {
    var (moved, rest) := Promote(q.unknown, [h]);
    q.(unverified := q.unverified + moved, unknown := rest,
       unknownSet := q.unknownSet - Hashes(moved), ready := q.ready + Hashes(moved))
  }

  function CollectUnknownBad(q: Queue, h: Hash): Queue {
    var (moved, rest) := Promote(q.unknown, [h]);
    q.(unknown := rest, unknownSet := q.unknownSet - Hashes(moved), knownBad := q.knownBad + Hashes(moved))
  }

  predicate Known(q: Queue, h: Hash) {
    h in q.ready || h in q.draining || h in q.unknownSet || h in q.knownBad
  }

  predicate HasPlace(q: Queue, p: Hash) {
    p in q.ready || p in q.draining || p in q.chain
  }

  function Import(q: Queue, b: Block): Queue {
    if Known(q, b.hash) || b.hash in q.chain then q
    else if b.parent in q.knownBad then CollectUnknownBad(q.(knownBad := q.knownBad + {b.hash}), b.hash)
    else if !HasPlace(q, b.parent) then
      q.(unknown := q.unknown + [b], unknownSet := q.unknownSet + {b.hash})
    else NoteReady(q.(unverified := q.unverified + [b], ready := q.ready + {b.hash}), b.hash)
  }

  /** A verifier thread takes the next block. */
  function Take(q: Queue): Queue
    requires q.unverified != []
  {
    q.(unverified := q.unverified[1..], verifying := q.verifying + [Job(q.unverified[0], false)])
  }

  /** A verified block leaves the front of the verifying queue: on to import, or out if its parent is bad. */
  function Pass(q: Queue, b: Block): Queue {
    if b.parent in q.knownBad
    then q.(ready := q.ready - {b.hash}, knownBad := q.knownBad + {b.hash})
    else q.(verified := q.verified + [b])
  }

  function DrainVerified(q: Queue): Queue
    decreases |q.verifying|
  {
    if q.verifying != [] && q.verifying[0].done
    then DrainVerified(Pass(q.(verifying := q.verifying[1..]), q.verifying[0].block))
    else q
  }

  predicate Working(q: Queue, i: nat) {
    i < |q.verifying| && !q.verifying[i].done
  }

  /** The thread working on entry `i` of the verifying queue delivers a verified block. */
  function Deliver(q: Queue, i: nat): Queue
    requires Working(q, i)
  {
    if i == 0 then DrainVerified(Pass(q.(verifying := q.verifying[1..]), q.verifying[0].block))
    else q.(verifying := q.verifying[i := q.verifying[i].(done := true)])
  }

  /** The thread working on entry `i` finds its block bad. */
  function Reject(q: Queue, i: nat): Queue
    requires Working(q, i)
  {
    var h := q.verifying[i].block.hash;
    DrainVerified(q.(ready := q.ready - {h}, knownBad := q.knownBad + {h},
                     verifying := q.verifying[..i] + q.verifying[i + 1..]))
  }

  /** At most `max` blocks are handed out, none while the last ones are still being imported. */
  function Batch(q: Queue, max: nat): seq<Block> {
    if q.draining != {} then [] else q.verified[..if max < |q.verified| then max else |q.verified|]
  }

  function Drain(q: Queue, max: nat): Queue {
    var out := Batch(q, max);
    q.(verified := q.verified[|out|..], draining := q.draining + Hashes(out), ready := q.ready - Hashes(out))
  }

  function DoneDrain(q: Queue): Queue { q.(draining := {}) }

  // ----- What becomes of finished blocks -----

  /** The first `n` entries are finished, and no more. */
  predicate FinishedFront(jobs: seq<Job>, n: nat) {
    n <= |jobs| && (forall k :: 0 <= k < n ==> jobs[k].done) && (n < |jobs| ==> !jobs[n].done)
  }

  /** Which of `blocks` go as bad: those whose parent is bad, or is an earlier one that goes as bad. */
  predicate Judged(blocks: seq<Block>, knownBad: set<Hash>, bads: seq<bool>) {
    |bads| == |blocks| && forall k :: 0 <= k < |bads| ==> (bads[k] <==> BadParent(blocks, knownBad, bads, k))
  }

  predicate BadParent(blocks: seq<Block>, knownBad: set<Hash>, bads: seq<bool>, k: nat)
    requires k < |bads| == |blocks|
  {
    blocks[k].parent in knownBad || exists j :: 0 <= j < k && bads[j] && blocks[j].hash == blocks[k].parent
  }

  /** Those marked `which`, in their order. */
  function Marked(blocks: seq<Block>, bads: seq<bool>, which: bool): seq<Block>
    requires |bads| == |blocks|
  {
    if blocks == [] then [] else (if bads[0] == which then [blocks[0]] else []) + Marked(blocks[1..], bads[1..], which)
  }

  /**
   `q'` is `q` after `blocks` have left the verifying queue, on to import or
   out as bad, and `rest` are left in it.
   */
  predicate Sorted(q: Queue, q': Queue, blocks: seq<Block>, bads: seq<bool>, rest: seq<Job>) {
    && Judged(blocks, q.knownBad, bads)
    && q'.verified == q.verified + Marked(blocks, bads, false)
    && q'.knownBad == q.knownBad + Hashes(Marked(blocks, bads, true))
    && q'.ready == q.ready - Hashes(Marked(blocks, bads, true))
    && q'.verifying == rest
    && q' == q.(verified := q'.verified, knownBad := q'.knownBad, ready := q'.ready, verifying := rest)
  }

  /** Sorting one block and then others is sorting all of them. */
  lemma SortedOnce(q: Queue, b: Block, q1: Queue, q2: Queue, blocks: seq<Block>, bads: seq<bool>, rest: seq<Job>)
    requires q1 == Pass(q.(verifying := q1.verifying), b) && Sorted(q1, q2, blocks, bads, rest)
    ensures Sorted(q, q2, [b] + blocks, [b.parent in q.knownBad] + bads, rest)
  {
    var bad := b.parent in q.knownBad;
    var all, marks := [b] + blocks, [bad] + bads;
    assert all[1..] == blocks && marks[1..] == bads;
    forall k: nat | k < |marks| ensures marks[k] <==> BadParent(all, q.knownBad, marks, k) {
      if k > 0 {
        assert bads[k - 1] <==> BadParent(blocks, q1.knownBad, bads, k - 1);
        ShiftParent(b, bad, q, q1, blocks, bads, k - 1);
      }
    }
    OneHash(b);
    HashesAppend(if bad then [b] else [], Marked(blocks, bads, true));
    assert q2.verified == q.verified + Marked(all, marks, false);
    assert q2.knownBad == q.knownBad + Hashes(Marked(all, marks, true));
    assert q2.ready == q.ready - Hashes(Marked(all, marks, true));
  }

  lemma ShiftParent(b: Block, bad: bool, q: Queue, q1: Queue, blocks: seq<Block>, bads: seq<bool>, k: nat)
    requires k < |bads| == |blocks| && q1.knownBad == if bad then q.knownBad + {b.hash} else q.knownBad
    ensures BadParent([b] + blocks, q.knownBad, [bad] + bads, k + 1) <==> BadParent(blocks, q1.knownBad, bads, k)
  {
    var all, marks := [b] + blocks, [bad] + bads;
    if BadParent(all, q.knownBad, marks, k + 1) && blocks[k].parent !in q1.knownBad {
      var j :| 0 <= j < k + 1 && marks[j] && all[j].hash == all[k + 1].parent;
      assert bads[j - 1] && blocks[j - 1].hash == blocks[k].parent;
    }
    if BadParent(blocks, q1.knownBad, bads, k) && all[k + 1].parent !in q.knownBad {
      if blocks[k].parent in q1.knownBad {
        assert marks[0] && all[0].hash == all[k + 1].parent;
      } else {
        var j :| 0 <= j < k && bads[j] && blocks[j].hash == blocks[k].parent;
        assert marks[j + 1] && all[j + 1].hash == all[k + 1].parent;
      }
    }
  }

  lemma {:induction false} DrainVerifiedSorts(q: Queue) returns (n: nat, bads: seq<bool>)
    ensures FinishedFront(q.verifying, n)
    ensures Sorted(q, DrainVerified(q), Blocks(q.verifying[..n]), bads, q.verifying[n..])
    decreases |q.verifying|
  {
    if q.verifying != [] && q.verifying[0].done {
      var b := q.verifying[0].block;
      var q1 := Pass(q.(verifying := q.verifying[1..]), b);
      var m, marks := DrainVerifiedSorts(q1);
      n, bads := m + 1, [b.parent in q.knownBad] + marks;
      assert Blocks(q.verifying[..n]) == [b] + Blocks(q1.verifying[..m]);
      assert q.verifying[n..] == q1.verifying[m..];
      SortedOnce(q, b, q1, DrainVerified(q), Blocks(q1.verifying[..m]), marks, q.verifying[n..]);
    } else {
      n, bads := 0, [];
      assert q.verifying[0..] == q.verifying;
      assert q.verified + [] == q.verified && q.knownBad + Hashes([]) == q.knownBad && q.ready - Hashes([]) == q.ready;
    }
  }

  /** The front block and the finished ones behind it are sorted; a block further back only becomes finished. */
  lemma DeliverSorts(q: Queue, i: nat) returns (n: nat, bads: seq<bool>)
    requires Working(q, i)
    ensures i > 0 ==> Deliver(q, i) == q.(verifying := q.verifying[i := Job(q.verifying[i].block, true)])
    ensures i == 0 ==>
              && FinishedFront(q.verifying[1..], n)
              && Sorted(q, Deliver(q, 0), Blocks(q.verifying[..n + 1]), bads, q.verifying[n + 1..])
  {
    n, bads := 0, [];
    if i == 0 {
      var b := q.verifying[0].block;
      var q1 := Pass(q.(verifying := q.verifying[1..]), b);
      var m, marks := DrainVerifiedSorts(q1);
      n, bads := m, [b.parent in q.knownBad] + marks;
      assert Blocks(q.verifying[..n + 1]) == [b] + Blocks(q1.verifying[..m]);
      assert q.verifying[n + 1..] == q1.verifying[m..];
      SortedOnce(q, b, q1, Deliver(q, 0), Blocks(q1.verifying[..m]), marks, q.verifying[n + 1..]);
    }
  }

  lemma FirstJudged(q: Queue, n: nat, bads: seq<bool>)
    requires q.verifying != [] && n < |q.verifying| && Judged(Blocks(q.verifying[..n + 1]), q.knownBad, bads)
    ensures |bads| > 0 && (bads[0] <==> q.verifying[0].block.parent in q.knownBad)
  {
    assert bads[0] <==> BadParent(Blocks(q.verifying[..n + 1]), q.knownBad, bads, 0);
  }

  /** The rejected block leaves as bad, and then the finished ones that are now in front are sorted. */
  lemma RejectSorts(q: Queue, i: nat) returns (q1: Queue, n: nat, bads: seq<bool>)
    requires Working(q, i)
    ensures var h := q.verifying[i].block.hash;
            q1 == q.(ready := q.ready - {h}, knownBad := q.knownBad + {h},
                     verifying := q.verifying[..i] + q.verifying[i + 1..])
    ensures FinishedFront(q1.verifying, n)
    ensures Sorted(q1, Reject(q, i), Blocks(q1.verifying[..n]), bads, q1.verifying[n..])
  {
    var h := q.verifying[i].block.hash;
    q1 := q.(ready := q.ready - {h}, knownBad := q.knownBad + {h},
             verifying := q.verifying[..i] + q.verifying[i + 1..]);
    n, bads := DrainVerifiedSorts(q1);
  }

  // ----- The invariant -----

  function Blocks(jobs: seq<Job>): seq<Block> { seq(|jobs|, i requires 0 <= i < |jobs| => jobs[i].block) }

  /** All queued blocks in the order in which they will be handed out. */
  function Line(q: Queue): seq<Block> { q.verified + Blocks(q.verifying) + q.unverified }

  predicate Placed(line: seq<Block>, outside: set<Hash>, i: nat)
    requires i < |line|
  {
    line[i].parent in outside + Hashes(line[..i])
  }

  /** Parents come first; behind the first `n` blocks a parent may also have turned out bad. */
  predicate PlacedAt(line: seq<Block>, n: nat, solid: set<Hash>, bad: set<Hash>, i: nat)
    requires i < |line|
  {
    Placed(line, if i < n then solid else solid + bad, i)
  }

  predicate OrderedLine(line: seq<Block>, n: nat, solid: set<Hash>, bad: set<Hash>) {
    n <= |line| && forall i: nat :: i < |line| ==> PlacedAt(line, n, solid, bad, i)
  }

  predicate Ordered(q: Queue) {
    OrderedLine(Line(q), |q.verified|, q.chain + q.draining, q.knownBad)
  }

  predicate SetsAgree(q: Queue) {
    && q.ready == Hashes(Line(q)) && Distinct(Line(q))
    && q.unknownSet == Hashes(q.unknown) && Distinct(q.unknown)
    && q.ready !! q.draining !! q.unknownSet !! q.knownBad
  }

  predicate Sound(q: Queue) { Ordered(q) && SetsAgree(q) }

  predicate Inv(q: Queue) {
    Sound(q) && (q.verifying != [] ==> !q.verifying[0].done)
  }

  // ----- Ordered lines -----

  lemma LineGrows(line: seq<Block>, more: seq<Block>, n: nat, solid: set<Hash>, bad: set<Hash>, bad': set<Hash>)
    requires OrderedLine(line, n, solid, bad) && bad <= bad'
    requires ParentsFirst(more, solid + bad' + Hashes(line))
    ensures OrderedLine(line + more, n, solid, bad')
  {
    var all := line + more;
    forall i: nat | i < |all| ensures PlacedAt(all, n, solid, bad', i) {
      if i < |line| {
        assert all[..i] == line[..i];
        assert PlacedAt(line, n, solid, bad, i);
      } else {
        assert all[..i] == line + more[..i - |line|];
        HashesAppend(line, more[..i - |line|]);
        assert more[i - |line|].parent in solid + bad' + Hashes(line) + Hashes(more[..i - |line|]);
      }
    }
  }

  lemma LineLoses(line: seq<Block>, k: nat, n: nat, solid: set<Hash>, bad: set<Hash>)
    requires OrderedLine(line, n, solid, bad) && n <= k < |line|
    ensures OrderedLine(line[..k] + line[k + 1..], n, solid, bad + {line[k].hash})
  {
    var all := line[..k] + line[k + 1..];
    forall i: nat | i < |all| ensures PlacedAt(all, n, solid, bad + {line[k].hash}, i) {
      if i < k {
        assert all[..i] == line[..i];
        assert PlacedAt(line, n, solid, bad, i);
      } else {
        assert PlacedAt(line, n, solid, bad, i + 1) && all[i] == line[i + 1];
        forall h | h in Hashes(line[..i + 1]) && h != line[k].hash ensures h in Hashes(all[..i]) {
          var j :| 0 <= j < i + 1 && line[..i + 1][j].hash == h;
          assert all[..i][if j < k then j else j - 1].hash == h;
        }
      }
    }
  }

  lemma LineHandsOut(line: seq<Block>, k: nat, n: nat, solid: set<Hash>, bad: set<Hash>)
    requires OrderedLine(line, n, solid, bad) && k <= n
    ensures OrderedLine(line[k..], n - k, solid + Hashes(line[..k]), bad)
  {
    var all, m, solid' := line[k..], n - k, solid + Hashes(line[..k]);
    forall i: nat | i < |all| ensures PlacedAt(all, m, solid', bad, i) {
      assert line[..i + k] == line[..k] + all[..i];
      HashesAppend(line[..k], all[..i]);
      assert PlacedAt(line, n, solid, bad, i + k);
    }
  }

  lemma LineVerifies(line: seq<Block>, n: nat, solid: set<Hash>, bad: set<Hash>)
    requires OrderedLine(line, n, solid, bad) && n < |line| && line[n].parent !in bad
    ensures OrderedLine(line, n + 1, solid, bad)
  {
    var m := n + 1;
    forall i: nat | i < |line| ensures PlacedAt(line, m, solid, bad, i) {
      assert PlacedAt(line, n, solid, bad, i);
    }
  }

  lemma DistinctAppend(a: seq<Block>, b: seq<Block>)
    requires Distinct(a) && Distinct(b) && Hashes(a) !! Hashes(b)
    ensures Distinct(a + b)
  {
    forall i, j | 0 <= i < j < |a + b| ensures (a + b)[i].hash != (a + b)[j].hash {
      if i < |a| <= j {
        assert a[i].hash in Hashes(a) && b[j - |a|].hash in Hashes(b);
      }
    }
  }

  lemma DistinctParts(a: seq<Block>, b: seq<Block>)
    requires Distinct(a + b)
    ensures Distinct(a) && Distinct(b) && Hashes(a) !! Hashes(b)
  {
    assert forall i :: 0 <= i < |a| ==> (a + b)[i] == a[i];
    assert forall j :: 0 <= j < |b| ==> (a + b)[|a| + j] == b[j];
  }

  // ----- Every section keeps the invariant -----

  /** New blocks at the end of the line, each behind its parent. */
  lemma JoinKeeps(q: Queue, more: seq<Block>, unknown': seq<Block>)
    requires Inv(q) && Distinct(more)
    requires Hashes(more) !! (q.ready + q.draining + q.knownBad)
    requires ParentsFirst(more, q.ready + q.draining + q.chain)
    requires Distinct(unknown') && Hashes(unknown') == q.unknownSet - Hashes(more)
    ensures Inv(q.(unverified := q.unverified + more, ready := q.ready + Hashes(more),
                   unknown := unknown', unknownSet := q.unknownSet - Hashes(more)))
  {
    var q' := q.(unverified := q.unverified + more, ready := q.ready + Hashes(more),
                 unknown := unknown', unknownSet := q.unknownSet - Hashes(more));
    assert Line(q') == Line(q) + more;
    HashesAppend(Line(q), more);
    DistinctAppend(Line(q), more);
    forall i | 0 <= i < |more|
      ensures more[i].parent in q.chain + q.draining + q.knownBad + Hashes(Line(q)) + Hashes(more[..i])
    {
      assert more[i].parent in q.ready + q.draining + q.chain + Hashes(more[..i]);
    }
    LineGrows(Line(q), more, |q.verified|, q.chain + q.draining, q.knownBad, q.knownBad);
  }

  lemma HashesOfParts(s: seq<Block>, a: seq<Block>, b: seq<Block>)
    requires Split(s, a, b) && Distinct(s)
    ensures Hashes(b) == Hashes(s) - Hashes(a) && Hashes(a) <= Hashes(s)
  {
    forall h | h in Hashes(s) ensures h in Hashes(a) || h in Hashes(b) {
      var i :| 0 <= i < |s| && s[i].hash == h;
      if s[i] in a { var j :| 0 <= j < |a| && a[j] == s[i]; assert a[j].hash in Hashes(a); }
      else { var j :| 0 <= j < |b| && b[j] == s[i]; assert b[j].hash in Hashes(b); }
    }
    forall h | h in Hashes(a) ensures h in Hashes(s) && h !in Hashes(b) {
      var i :| 0 <= i < |a| && a[i].hash == h;
      assert a[i] in s;
      var j :| 0 <= j < |s| && s[j] == a[i];
      assert s[j].hash in Hashes(s);
    }
    forall h | h in Hashes(b) ensures h in Hashes(s) {
      var i :| 0 <= i < |b| && b[i].hash == h;
      assert b[i] in s;
      var j :| 0 <= j < |s| && s[j] == b[i];
      assert s[j].hash in Hashes(s);
    }
  }

  /** A block that has its place brings in its waiting descendants. */
  lemma NoteReadyKeeps(q: Queue, h: Hash)
    requires Inv(q) && HasPlace(q, h)
    ensures Inv(NoteReady(q, h))
  {
    var (moved, rest) := Promote(q.unknown, [h]);
    PromoteMeaning(q.unknown, [h]);
    HashesOfParts(q.unknown, moved, rest);
    assert SetOf([h]) == {h};
    JoinKeeps(q, moved, rest);
  }

  lemma ImportKeeps(q: Queue, b: Block)
    requires Inv(q)
    ensures Inv(Import(q, b))
  {
    if !Known(q, b.hash) && b.hash !in q.chain {
      OneHash(b);
      if b.parent in q.knownBad {
        MarkBadKeeps(q, b.hash);
        CollectKeeps(q.(knownBad := q.knownBad + {b.hash}), b.hash);
      } else if !HasPlace(q, b.parent) {
        DistinctAppend(q.unknown, [b]);
        HashesAppend(q.unknown, [b]);
      } else {
        assert q.unknownSet - {b.hash} == q.unknownSet;
        JoinKeeps(q, [b], q.unknown);
        var q1 := q.(unverified := q.unverified + [b], ready := q.ready + {b.hash});
        NoteReadyKeeps(q1, b.hash);
      }
    }
  }

  lemma MarkBadKeeps(q: Queue, h: Hash)
    requires Sound(q) && h !in q.ready && h !in q.draining && h !in q.unknownSet
    ensures Sound(q.(knownBad := q.knownBad + {h}))
  {
    LineGrows(Line(q), [], |q.verified|, q.chain + q.draining, q.knownBad, q.knownBad + {h});
    assert Line(q) + [] == Line(q);
  }

  lemma CollectKeeps(q: Queue, h: Hash)
    requires Sound(q)
    ensures Sound(CollectUnknownBad(q, h))
  {
    var (moved, rest) := Promote(q.unknown, [h]);
    PromoteMeaning(q.unknown, [h]);
    HashesOfParts(q.unknown, moved, rest);
    LineGrows(Line(q), [], |q.verified|, q.chain + q.draining, q.knownBad, q.knownBad + Hashes(moved));
    assert Line(q) + [] == Line(q);
  }

  lemma TakeKeeps(q: Queue)
    requires Inv(q) && q.unverified != []
    ensures Inv(Take(q)) && Line(Take(q)) == Line(q)
  {
    assert Line(Take(q)) == Line(q);
  }

  /** A queued, not yet verified block turns out bad and leaves the line. */
  lemma LoseKeeps(q: Queue, q': Queue, k: nat)
    requires Sound(q) && |q.verified| <= k < |Line(q)|
    requires Line(q') == Line(q)[..k] + Line(q)[k + 1..]
    requires var h := Line(q)[k].hash;
             q' == q.(ready := q.ready - {h}, knownBad := q.knownBad + {h}, verifying := q'.verifying)
    ensures Sound(q')
  {
    var line := Line(q);
    LineLoses(line, k, |q.verified|, q.chain + q.draining, q.knownBad);
    forall x | x in Hashes(line) && x != line[k].hash ensures x in Hashes(Line(q')) {
      var j :| 0 <= j < |line| && line[j].hash == x;
      assert Line(q')[if j < k then j else j - 1].hash == x;
    }
    assert line[k].hash in q.ready;
  }

  lemma FrontPassKeeps(q: Queue)
    requires Sound(q) && q.verifying != []
    ensures Sound(Pass(q.(verifying := q.verifying[1..]), q.verifying[0].block))
  {
    var b := q.verifying[0].block;
    var q' := Pass(q.(verifying := q.verifying[1..]), b);
    var n := |q.verified|;
    assert Line(q)[n] == b;
    if b.parent in q.knownBad {
      assert Line(q') == Line(q)[..n] + Line(q)[n + 1..];
      LoseKeeps(q, q', n);
    } else {
      assert Line(q') == Line(q);
      LineVerifies(Line(q), n, q.chain + q.draining, q.knownBad);
    }
  }

  lemma {:induction false} DrainVerifiedKeeps(q: Queue)
    requires Sound(q)
    ensures Inv(DrainVerified(q))
    decreases |q.verifying|
  {
    if q.verifying != [] && q.verifying[0].done {
      FrontPassKeeps(q);
      DrainVerifiedKeeps(Pass(q.(verifying := q.verifying[1..]), q.verifying[0].block));
    }
  }

  lemma DeliverKeeps(q: Queue, i: nat)
    requires Inv(q) && Working(q, i)
    ensures Inv(Deliver(q, i))
  {
    if i == 0 {
      FrontPassKeeps(q);
      DrainVerifiedKeeps(Pass(q.(verifying := q.verifying[1..]), q.verifying[0].block));
    } else {
      assert Line(Deliver(q, i)) == Line(q);
    }
  }

  lemma RejectKeeps(q: Queue, i: nat)
    requires Inv(q) && Working(q, i)
    ensures Inv(Reject(q, i))
  {
    var h := q.verifying[i].block.hash;
    var q' := q.(ready := q.ready - {h}, knownBad := q.knownBad + {h},
                 verifying := q.verifying[..i] + q.verifying[i + 1..]);
    var k := |q.verified| + i;
    assert Line(q)[k] == q.verifying[i].block;
    assert Line(q') == Line(q)[..k] + Line(q)[k + 1..];
    LoseKeeps(q, q', k);
    DrainVerifiedKeeps(q');
  }

  lemma DrainKeeps(q: Queue, max: nat)
    requires Inv(q)
    ensures Inv(Drain(q, max))
  {
    var out := Batch(q, max);
    var k := |out|;
    var q' := Drain(q, max);
    assert q.verified[..k] == out;
    assert Line(q)[..k] == out && Line(q') == Line(q)[k..];
    LineHandsOut(Line(q), k, |q.verified|, q.chain + q.draining, q.knownBad);
    assert q.chain + q.draining + Hashes(out) == q'.chain + q'.draining;
    assert Line(q) == out + Line(q');
    HashesAppend(out, Line(q'));
    DistinctParts(out, Line(q'));
  }

  lemma ChainKeeps(q: Queue, more: set<Hash>)
    requires Inv(q)
    ensures Inv(q.(chain := q.chain + more))
  {
    var line := Line(q);
    forall i: nat | i < |line| ensures PlacedAt(line, |q.verified|, q.chain + more + q.draining, q.knownBad, i) {
      assert PlacedAt(line, |q.verified|, q.chain + q.draining, q.knownBad, i);
    }
  }

  lemma DoneDrainKeeps(q: Queue)
    requires Inv(q) && q.draining <= q.chain
    ensures Inv(DoneDrain(q))
  {
    assert q.chain + q.draining == q.chain + {};
  }

  // ----- Every interleaving -----

  datatype Event =
    | Imported(b: Block)
    | Taken
    | Delivered(i: nat)
    | Rejected(i: nat)
    | Drained(max: nat)
    | DrainDone
    | NotedReady(h: Hash)
    | ChainGrew(more: set<Hash>)

  /** No queued block is bad or has a bad parent. */
  predicate NoneTainted(q: Queue) {
    forall b :: b in Line(q) ==> b.hash !in q.knownBad && b.parent !in q.knownBad
  }

  /** Importing `b` marks it and its waiting descendants bad. */
  predicate MarksBad(q: Queue, b: Block) { !Known(q, b.hash) && b.hash !in q.chain && b.parent in q.knownBad }

  /** The loops that would take bad blocks and their children out of the three queues find nothing to take. */
  predicate LoopsIdle(q: Queue, b: Block) { MarksBad(q, b) ==> NoneTainted(Import(q, b)) }

  /** As long as no waiting block is in the chain already, that is so exactly when it was so before. */
  lemma LoopsIdleIff(q: Queue, b: Block)
    requires Inv(q) && MarksBad(q, b) && q.unknownSet !! q.chain
    ensures LoopsIdle(q, b) <==> NoneTainted(q)
  {
    var q' := Import(q, b);
    ImportKeeps(q, b);
    assert Line(q') == Line(q) && q.knownBad <= q'.knownBad;
    PromoteMeaning(q.unknown, [b.hash]);
    var (moved, rest) := Promote(q.unknown, [b.hash]);
    HashesOfParts(q.unknown, moved, rest);
    if NoneTainted(q) {
      forall x | x in Line(q) ensures x.hash !in q'.knownBad && x.parent !in q'.knownBad {
        var i: nat :| i < |Line(q)| && Line(q)[i] == x;
        assert x.hash in Hashes(Line(q));
        assert PlacedAt(Line(q), |q.verified|, q.chain + q.draining, q.knownBad, i);
        assert x.parent in q.chain + q.draining + Hashes(Line(q)) by {
          forall h | h in Hashes(Line(q)[..i]) ensures h in Hashes(Line(q)) {
            var j :| 0 <= j < i && Line(q)[..i][j].hash == h;
            assert Line(q)[j].hash == h;
          }
        }
      }
    }
  }

  predicate Enabled(q: Queue, e: Event) {
    match e
    case Imported(b) => LoopsIdle(q, b)
    case Taken => q.unverified != []
    case Delivered(i) => Working(q, i)
    case Rejected(i) => Working(q, i)
    case DrainDone => q.draining <= q.chain
    case NotedReady(h) => h in q.chain
    case _ => true
  }

  function Step(q: Queue, e: Event): Queue
    requires Enabled(q, e)
  {
    match e
    case Imported(b) => Import(q, b)
    case Taken => Take(q)
    case Delivered(i) => Deliver(q, i)
    case Rejected(i) => Reject(q, i)
    case Drained(max) => Drain(q, max)
    case DrainDone => DoneDrain(q)
    case NotedReady(h) => NoteReady(q, h)
    case ChainGrew(more) => q.(chain := q.chain + more)
  }

  lemma StepKeeps(q: Queue, e: Event)
    requires Inv(q) && Enabled(q, e)
    ensures Inv(Step(q, e))
  {
    match e
    case Imported(b) => ImportKeeps(q, b);
    case Taken => TakeKeeps(q);
    case Delivered(i) => DeliverKeeps(q, i);
    case Rejected(i) => RejectKeeps(q, i);
    case Drained(max) => DrainKeeps(q, max);
    case DrainDone => DoneDrainKeeps(q);
    case NotedReady(h) => NoteReadyKeeps(q, h);
    case ChainGrew(more) => ChainKeeps(q, more);
  }

  predicate AllEnabled(q: Queue, events: seq<Event>)
    decreases |events|
  {
    events == [] || (Enabled(q, events[0]) && AllEnabled(Step(q, events[0]), events[1..]))
  }

  function After(q: Queue, events: seq<Event>): Queue
    requires AllEnabled(q, events)
    decreases |events|
  {
    if events == [] then q else After(Step(q, events[0]), events[1..])
  }

  /** In every interleaving the ready set is exactly the queued hashes, and the unknown set those that wait. */
  lemma {:induction false} InterleavingsKeep(q: Queue, events: seq<Event>)
    requires Inv(q) && AllEnabled(q, events)
    ensures Inv(After(q, events))
    decreases |events|
  {
    if events != [] {
      StepKeeps(q, events[0]);
      InterleavingsKeep(Step(q, events[0]), events[1..]);
    }
  }

  /** Whatever came before, a batch hands out each block after its parent: in the chain, or earlier in the batch. */
  lemma BatchInOrder(chain: set<Hash>, events: seq<Event>, max: nat, i: nat)
    requires AllEnabled(Empty(chain), events)
    requires var q := After(Empty(chain), events); i < |Batch(q, max)|
    ensures var q := After(Empty(chain), events);
            var out := Batch(q, max);
            out[i].parent in q.chain || exists j :: 0 <= j < i && out[j].hash == out[i].parent
  {
    InterleavingsKeep(Empty(chain), events);
    var q := After(Empty(chain), events);
    var out := Batch(q, max);
    assert PlacedAt(Line(q), |q.verified|, q.chain + q.draining, q.knownBad, i);
    assert Line(q)[..i] == out[..i];
    if out[i].parent !in q.chain {
      var j :| 0 <= j < |out[..i]| && out[..i][j].hash == out[i].parent;
    }
  }

  // ----- Why blocks are bad, and that others are not lost -----

  /** A block that step `e` finds in the queue or brings. */
  predicate Present(q: Queue, e: Event, b: Block) {
    b in q.unknown || b in Blocks(q.verifying) || e == Imported(b)
  }

  /** Its verifier has rejected it, or its parent is bad. */
  predicate Cause(q: Queue, e: Event, q': Queue, b: Block)
    requires Enabled(q, e)
  {
    Present(q, e, b) && ((e.Rejected? && q.verifying[e.i].block == b) || b.parent in q'.knownBad)
  }

  /** A hash that a step makes bad is that of a block with a cause. */
  lemma BadHasCause(q: Queue, e: Event, h: Hash) returns (b: Block)
    requires Enabled(q, e) && h !in q.knownBad && h in Step(q, e).knownBad
    ensures b.hash == h && Cause(q, e, Step(q, e), b)
  {
    match e
    case Imported(x) =>
      if h == x.hash { b := x; } else { b := CollectedHasCause(q, x, h); }
    case Delivered(i) =>
      var n, bads := DeliverSorts(q, i);
      b := SortedHasCause(q, Step(q, e), Blocks(q.verifying[..n + 1]), bads, q.verifying[n + 1..], h);
      assert b in Blocks(q.verifying) by { PartOfBlocks(q.verifying, n + 1, b); }
    case Rejected(i) =>
      var q1, n, bads := RejectSorts(q, i);
      var x := q.verifying[i].block;
      assert Blocks(q.verifying)[i] == x;
      if h == x.hash { b := x; } else {
        b := SortedHasCause(q1, Step(q, e), Blocks(q1.verifying[..n]), bads, q1.verifying[n..], h);
        PartOfBlocks(q1.verifying, n, b);
        var k :| 0 <= k < |q1.verifying| && q1.verifying[k].block == b;
        assert Blocks(q.verifying)[if k < i then k else k + 1] == b;
      }
    case _ => assert false;
  }

  lemma PartOfBlocks(jobs: seq<Job>, n: nat, b: Block)
    requires n <= |jobs| && b in Blocks(jobs[..n])
    ensures b in Blocks(jobs) && exists k :: 0 <= k < |jobs| && jobs[k].block == b
  {
    var k :| 0 <= k < n && Blocks(jobs[..n])[k] == b;
    assert Blocks(jobs)[k] == b && jobs[k].block == b;
  }

  lemma SortedHasCause(q: Queue, q': Queue, blocks: seq<Block>, bads: seq<bool>, rest: seq<Job>, h: Hash)
    returns (b: Block)
    requires Sorted(q, q', blocks, bads, rest) && h !in q.knownBad && h in q'.knownBad
    ensures b in blocks && b.hash == h && b.parent in q'.knownBad
  {
    var i :| 0 <= i < |Marked(blocks, bads, true)| && Marked(blocks, bads, true)[i].hash == h;
    var k := MarkedAt(blocks, bads, true, i);
    b := blocks[k];
    assert BadParent(blocks, q.knownBad, bads, k);
    if b.parent !in q.knownBad {
      var j :| 0 <= j < k && bads[j] && blocks[j].hash == b.parent;
      var l := MarkedHas(blocks, bads, true, j);
      assert Marked(blocks, bads, true)[l].hash in Hashes(Marked(blocks, bads, true));
    }
  }

  lemma {:induction false} MarkedAt(blocks: seq<Block>, bads: seq<bool>, which: bool, i: nat) returns (k: nat)
    requires |bads| == |blocks| && i < |Marked(blocks, bads, which)|
    ensures k < |blocks| && blocks[k] == Marked(blocks, bads, which)[i] && bads[k] == which
  {
    if bads[0] == which && i == 0 {
      k := 0;
    } else {
      var l := MarkedAt(blocks[1..], bads[1..], which, if bads[0] == which then i - 1 else i);
      k := l + 1;
    }
  }

  lemma {:induction false} MarkedHas(blocks: seq<Block>, bads: seq<bool>, which: bool, k: nat) returns (i: nat)
    requires |bads| == |blocks| && k < |blocks| && bads[k] == which
    ensures i < |Marked(blocks, bads, which)| && Marked(blocks, bads, which)[i] == blocks[k]
  {
    if k == 0 {
      i := 0;
    } else {
      var l := MarkedHas(blocks[1..], bads[1..], which, k - 1);
      i := if bads[0] == which then l + 1 else l;
    }
  }

  lemma CollectedHasCause(q: Queue, x: Block, h: Hash) returns (b: Block)
    requires MarksBad(q, x) && h != x.hash && h !in q.knownBad && h in Import(q, x).knownBad
    ensures b in q.unknown && b.hash == h && b.parent in Import(q, x).knownBad
  {
    var (moved, rest) := Promote(q.unknown, [x.hash]);
    PromoteMeaning(q.unknown, [x.hash]);
    var i :| 0 <= i < |moved| && moved[i].hash == h;
    b := moved[i];
    assert b.parent in {x.hash} + Hashes(moved[..i]);
    if b.parent != x.hash {
      var j :| 0 <= j < i && moved[..i][j].hash == b.parent;
      assert moved[j].hash == b.parent;
    }
  }

  /** The block has been handed out by the `t`-th event. */
  predicate HandedOut(q: Queue, events: seq<Event>, t: nat, b: Block) {
    && t < |events| && AllEnabled(q, events[..t]) && events[t].Drained?
    && b in Batch(After(q, events[..t]), events[t].max)
  }

  /** Nothing but a drain takes a verified block away. */
  lemma VerifiedStays(q: Queue, e: Event, b: Block)
    requires Enabled(q, e) && b in q.verified && !(e.Drained? && b in Batch(q, e.max))
    ensures b in Step(q, e).verified
  {
    match e
    case Delivered(i) =>
      var n, bads := DeliverSorts(q, i);
    case Rejected(i) =>
      var q1, n, bads := RejectSorts(q, i);
    case Drained(max) =>
      var out := Batch(q, max);
      assert q.verified == out + q.verified[|out|..];
    case _ =>
  }

  lemma HandedLater(q: Queue, events: seq<Event>, t: nat, b: Block)
    requires events != [] && Enabled(q, events[0]) && HandedOut(Step(q, events[0]), events[1..], t, b)
    ensures HandedOut(q, events, t + 1, b)
  {
    assert events[..t + 1][1..] == events[1..][..t];
  }

  /** Over every run: a hash that has become bad did so when a block with a cause did. */
  lemma {:induction false} BadInRun(q: Queue, events: seq<Event>, h: Hash) returns (t: nat, b: Block)
    requires AllEnabled(q, events) && h !in q.knownBad && h in After(q, events).knownBad
    ensures t < |events| && AllEnabled(q, events[..t]) && Enabled(After(q, events[..t]), events[t]) && b.hash == h
    ensures var q' := After(q, events[..t]); Cause(q', events[t], Step(q', events[t]), b)
    decreases |events|
  {
    if h in Step(q, events[0]).knownBad {
      t := 0;
      b := BadHasCause(q, events[0], h);
      assert events[..0] == [];
    } else {
      var u, x := BadInRun(Step(q, events[0]), events[1..], h);
      t, b := u + 1, x;
      assert events[..t][1..] == events[1..][..u];
    }
  }

  /** In every interleaving a verified block is still waiting or has been handed out. */
  lemma {:induction false} NothingLost(q: Queue, events: seq<Event>, b: Block)
    requires AllEnabled(q, events) && b in q.verified
    ensures b in After(q, events).verified || exists t: nat :: HandedOut(q, events, t, b)
    decreases |events|
  {
    if events != [] {
      var e, rest := events[0], events[1..];
      if e.Drained? && b in Batch(q, e.max) {
        assert events[..0] == [] && HandedOut(q, events, 0, b);
      } else {
        VerifiedStays(q, e, b);
        NothingLost(Step(q, e), rest, b);
        if b !in After(q, events).verified {
          var t: nat :| HandedOut(Step(q, e), rest, t, b);
          HandedLater(q, events, t, b);
        }
      }
    }
  }

  /** A delivered front block whose parent is not bad is verified, and so is never lost. */
  lemma GoodFrontDelivered(q: Queue, events: seq<Event>)
    requires Working(q, 0) && q.verifying[0].block.parent !in q.knownBad && AllEnabled(Deliver(q, 0), events)
    ensures var b := q.verifying[0].block;
            b in After(Deliver(q, 0), events).verified || exists t: nat :: HandedOut(Deliver(q, 0), events, t, b)
  {
    var b := q.verifying[0].block;
    var n, bads := DeliverSorts(q, 0);
    FirstJudged(q, n, bads);
    var i := MarkedHas(Blocks(q.verifying[..n + 1]), bads, false, 0);
    assert Deliver(q, 0).verified[|q.verified| + i] == b;
    NothingLost(Deliver(q, 0), events, b);
  }

  /** Drains, imports of batches and their completions. */
  predicate OnlyDrains(events: seq<Event>, max: nat) {
    forall k :: 0 <= k < |events| ==> events[k] == Drained(max) || events[k].ChainGrew? || events[k].DrainDone?
  }

  /** Drains that are imported and completed one after the other get to every verified block, front first. */
  lemma {:induction false} DrainsReach(q: Queue, max: nat, i: nat) returns (events: seq<Event>)
    requires max > 0 && q.draining == {} && i < |q.verified|
    ensures events != [] && AllEnabled(q, events) && HandedOut(q, events, |events| - 1, q.verified[i])
    ensures OnlyDrains(events, max)
    decreases i
  {
    if i < max {
      events := [Drained(max)];
      LastDrain(q, max, i);
    } else {
      var rest := DrainsReach(AfterRound(q, max), max, i - max);
      events := RoundFirst(q, max, rest, q.verified[i]);
    }
  }

  lemma LastDrain(q: Queue, max: nat, i: nat)
    requires q.draining == {} && i < |q.verified| && i < max
    ensures AllEnabled(q, [Drained(max)]) && HandedOut(q, [Drained(max)], 0, q.verified[i])
  {
    assert [Drained(max)][..0] == [] && Batch(q, max)[i] == q.verified[i];
  }

  /** A drain, the import of its batch, and its completion. */
  function AfterRound(q: Queue, max: nat): (r: Queue)
    requires q.draining == {} && max <= |q.verified|
    ensures r.draining == {} && r.verified == q.verified[max..]
  {
    DoneDrain(Drain(q, max).(chain := q.chain + Hashes(Batch(q, max))))
  }

  lemma RoundFirst(q: Queue, max: nat, rest: seq<Event>, b: Block) returns (events: seq<Event>)
    requires q.draining == {} && max <= |q.verified| && rest != [] && AllEnabled(AfterRound(q, max), rest)
    requires HandedOut(AfterRound(q, max), rest, |rest| - 1, b) && OnlyDrains(rest, max)
    ensures events != [] && AllEnabled(q, events) && HandedOut(q, events, |events| - 1, b) && OnlyDrains(events, max)
  {
    var grown := ChainGrew(Hashes(Batch(q, max)));
    var q1 := Drain(q, max);
    var q2 := q1.(chain := q.chain + Hashes(Batch(q, max)));
    events := More(q2, DrainDone, AfterRound(q, max), rest, b, max);
    events := More(q1, grown, q2, events, b, max);
    events := More(q, Drained(max), q1, events, b, max);
  }

  lemma More(q: Queue, e: Event, q': Queue, events: seq<Event>, b: Block, max: nat) returns (all: seq<Event>)
    requires Enabled(q, e) && q' == Step(q, e) && events != [] && AllEnabled(q', events)
    requires HandedOut(q', events, |events| - 1, b) && OnlyDrains(events, max)
    requires e == Drained(max) || e.ChainGrew? || e.DrainDone?
    ensures all != [] && AllEnabled(q, all) && HandedOut(q, all, |all| - 1, b) && OnlyDrains(all, max)
  {
    Prepend(q, e, events, b);
    all := [e] + events;
  }

  lemma Prepend(q: Queue, e: Event, events: seq<Event>, b: Block)
    requires Enabled(q, e) && events != [] && AllEnabled(Step(q, e), events)
    requires HandedOut(Step(q, e), events, |events| - 1, b)
    ensures AllEnabled(q, [e] + events) && HandedOut(q, [e] + events, |events|, b)
  {
    assert ([e] + events)[1..] == events;
    HandedLater(q, [e] + events, |events| - 1, b);
  }
}
