/**
 The transaction queue (libcv/TransactionQueue.cpp): the same transactions under several indexes. The maps from
 sender to nonce to transaction never keep an empty inner map, and are written as one map from sender and nonce.
 */
module TransactionQueue {

  datatype Tx = Tx(hash: nat, sender: nat, nonce: nat, gasPrice: nat)

  type Slot = (nat, nat)

  function SlotOf(t: Tx): Slot { (t.sender, t.nonce) }

  datatype Answer = Success | AlreadyKnown | AlreadyInChain | NonceCheckFail | BlockLimitCheckFail | OverbidGasPrice

  datatype Queue = Queue(
    known: set<nat>,
    dropped: set<nat>,
    current: set<Tx>,
    byHash: map<nat, Tx>,
    bySlot: map<Slot, Tx>,
    future: map<Slot, Tx>)

  /** The three current indexes describe the same transactions. */
  ghost predicate Agree(q: Queue) {
    && (forall t :: t in q.current ==>
          t.hash in q.byHash && q.byHash[t.hash] == t && SlotOf(t) in q.bySlot && q.bySlot[SlotOf(t)] == t)
    && (forall h :: h in q.byHash ==> q.byHash[h] in q.current && q.byHash[h].hash == h)
    && forall s :: s in q.bySlot ==> q.bySlot[s] in q.current && SlotOf(q.bySlot[s]) == s
  }

  predicate SameHash(x: Tx, y: Tx) { x.hash == y.hash }

  /**
   Future transactions stand under their own sender and nonce, never one that
   is current; all hashes are known and differ.
   */
  ghost predicate Apart(q: Queue) {
    && (forall s :: s in q.future ==> SlotOf(q.future[s]) == s && s !in q.bySlot)
    && (forall s :: s in q.future ==> q.future[s].hash in q.known && q.future[s].hash !in q.byHash)
    && (forall s, s' {:trigger SameHash(q.future[s], q.future[s'])} ::
          s in q.future && s' in q.future && SameHash(q.future[s], q.future[s']) ==> s == s')
    && q.byHash.Keys <= q.known
  }

  ghost predicate Consistent(q: Queue) { Agree(q) && Apart(q) }

  /** What leaving the current queue does. */
  function Without(q: Queue, t: Tx): Queue {
    q.(known := q.known - {t.hash}, current := q.current - {t}, byHash := q.byHash - {t.hash},
        bySlot := q.bySlot - {SlotOf(t)})
  }

  function With(q: Queue, t: Tx): Queue {
    q.(current := q.current + {t}, byHash := q.byHash[t.hash := t], bySlot := q.bySlot[SlotOf(t) := t])
  }

  lemma WithoutKeeps(q: Queue, t: Tx)
    requires Consistent(q) && t in q.current
    ensures Consistent(Without(q, t))
  {
  }

  lemma WithKeeps(q: Queue, t: Tx)
    requires Consistent(q) && t.hash !in q.byHash && t.hash in q.known && SlotOf(t) !in q.bySlot
    requires SlotOf(t) !in q.future
    requires forall s :: s in q.future ==> q.future[s].hash != t.hash
    ensures Consistent(With(q, t))
  {
  }

  /** One future transaction made current. */
  function Promoted(q: Queue, s: Slot): Queue
    requires s in q.future
  {
    With(q.(future := q.future - {s}), q.future[s])
  }

  lemma PromotedKeeps(q: Queue, s: Slot)
    requires Consistent(q) && s in q.future
    ensures Consistent(Promoted(q, s))
  {
    forall s' | s' in q.future && s' != s ensures q.future[s'].hash != q.future[s].hash {
      assert !SameHash(q.future[s'], q.future[s]);
    }
    WithKeeps(q.(future := q.future - {s}), q.future[s]);
  }

  /** The unbroken run of future nonces from `nonce` on, made current. */
  function Run(q: Queue, sender: nat, nonce: nat): Queue
    decreases |q.future|
  {
    if (sender, nonce) in q.future then
      assert |q.future - {(sender, nonce)}| < |q.future| by { Smaller(q.future, (sender, nonce)); }
      Run(Promoted(q, (sender, nonce)), sender, nonce + 1)
    else q
  }

  lemma Smaller(m: map<Slot, Tx>, s: Slot)
    requires s in m
    ensures |m - {s}| == |m| - 1
  {
    assert (m - {s}).Keys == m.Keys - {s};
  }

  lemma {:induction false} RunKeeps(q: Queue, sender: nat, nonce: nat)
    requires Consistent(q)
    ensures Consistent(Run(q, sender, nonce))
    decreases |q.future|
  {
    var s := (sender, nonce);
    if s in q.future {
      Smaller(q.future, s);
      PromotedKeeps(q, s);
      RunKeeps(Promoted(q, s), sender, nonce + 1);
    }
  }

  predicate InRun(s: Slot, sender: nat, nonce: nat, gap: nat) { s.0 == sender && nonce <= s.1 < gap }

  function Kept(f: map<Slot, Tx>, sender: nat, nonce: nat, gap: nat): map<Slot, Tx> {
    map s | s in f && !InRun(s, sender, nonce, gap) :: f[s]
  }

  function Taken(f: map<Slot, Tx>, sender: nat, nonce: nat, gap: nat): map<Slot, Tx> {
    map s | s in f && InRun(s, sender, nonce, gap) :: f[s]
  }

  /** `gap` is the first nonce from `nonce` on that no future transaction of the sender has. */
  ghost predicate FirstGap(f: map<Slot, Tx>, sender: nat, nonce: nat, gap: nat) {
    nonce <= gap && (sender, gap) !in f && forall n: nat :: nonce <= n < gap ==> (sender, n) in f
  }

  /** The run moves exactly the slots before the first gap, and nothing else. */
  lemma {:induction false} RunMoves(q: Queue, sender: nat, nonce: nat) returns (gap: nat)
    requires forall s :: s in q.future ==> SlotOf(q.future[s]) == s
    ensures FirstGap(q.future, sender, nonce, gap)
    ensures var r := Run(q, sender, nonce);
            && r.known == q.known && r.dropped == q.dropped && r.future == Kept(q.future, sender, nonce, gap)
            && r.bySlot == q.bySlot + Taken(q.future, sender, nonce, gap)
    decreases |q.future|
  {
    var s := (sender, nonce);
    if s in q.future {
      var p := Promoted(q, s);
      Smaller(q.future, s);
      gap := RunMoves(p, sender, nonce + 1);
      GapStep(q.future, sender, nonce, gap);
      KeptStep(q.future, sender, nonce, gap);
      TakenStep(q.bySlot, q.future, sender, nonce, gap);
    } else {
      gap := nonce;
      assert Kept(q.future, sender, nonce, gap) == q.future;
      assert Taken(q.future, sender, nonce, gap) == map[];
    }
  }

  lemma GapStep(f: map<Slot, Tx>, sender: nat, nonce: nat, gap: nat)
    requires (sender, nonce) in f && FirstGap(f - {(sender, nonce)}, sender, nonce + 1, gap)
    ensures FirstGap(f, sender, nonce, gap)
  {
    forall n: nat | nonce <= n < gap ensures (sender, n) in f {
      if n > nonce { assert (sender, n) in f - {(sender, nonce)}; }
    }
  }

  lemma KeptStep(f: map<Slot, Tx>, sender: nat, nonce: nat, gap: nat)
    requires nonce < gap
    ensures Kept(f - {(sender, nonce)}, sender, nonce + 1, gap) == Kept(f, sender, nonce, gap)
  {
  }

  lemma TakenStep(b: map<Slot, Tx>, f: map<Slot, Tx>, sender: nat, nonce: nat, gap: nat)
    requires nonce < gap && (sender, nonce) in f
    ensures var s := (sender, nonce);
            b[s := f[s]] + Taken(f - {s}, sender, nonce + 1, gap) == b + Taken(f, sender, nonce, gap)
  {
  }

  // ----- Back to the future -----

  /** Some current transactions wait again. */
  function Demoted(q: Queue, out: set<Slot>): Queue {
    q.(current := (set t | t in q.current && SlotOf(t) !in out),
       byHash := (map h | h in q.byHash && SlotOf(q.byHash[h]) !in out :: q.byHash[h]),
       bySlot := (map s | s in q.bySlot && s !in out :: q.bySlot[s]),
       future := q.future + (map s | s in q.bySlot && s in out :: q.bySlot[s]))
  }

  lemma DemotedKeeps(q: Queue, out: set<Slot>)
    requires Consistent(q)
    ensures Consistent(Demoted(q, out))
  {
    DemotedAgree(q, out);
    DemotedApart(q, out);
  }

  /**
   `t` and its sender's later current transactions wait in `r`; the others,
   and those that waited, are where they were.
   */
  ghost predicate Waits(q: Queue, r: Queue, t: Tx) {
    && (forall x :: x in q.current && x.sender == t.sender && x.nonce >= t.nonce ==>
          x !in r.current && SlotOf(x) in r.future && r.future[SlotOf(x)] == x)
    && (forall x :: x in q.current && !(x.sender == t.sender && x.nonce >= t.nonce) ==>
          x in r.current && SlotOf(x) !in r.future)
    && (forall s :: s in q.future ==> s in r.future && r.future[s] == q.future[s])
    && r.current <= q.current && r.known == q.known && r.dropped == q.dropped
  }

  lemma DemotedWait(q: Queue, t: Tx)
    requires Consistent(q)
    ensures Waits(q, Demoted(q, Tops(q, t)), t)
  {
  }

  lemma DemotedAgree(q: Queue, out: set<Slot>)
    requires Agree(q)
    ensures Agree(Demoted(q, out))
  {
  }

  lemma DemotedApart(q: Queue, out: set<Slot>)
    requires Consistent(q)
    ensures Apart(Demoted(q, out))
  {
    var d := Demoted(q, out);
    forall s | s in d.future
      ensures SlotOf(d.future[s]) == s && s !in d.bySlot && d.future[s].hash in q.known && d.future[s].hash !in d.byHash
    {
      if s in q.bySlot { assert q.bySlot[s] in q.current; }
    }
    forall s, s' | s in d.future && s' in d.future && SameHash(d.future[s], d.future[s']) ensures s == s' {
      if s in q.bySlot { assert q.bySlot[s] in q.current; }
      if s' in q.bySlot { assert q.bySlot[s'] in q.current; }
    }
  }

  /** The slots setFuture takes: the sender's from a nonce on. */
  function Tops(q: Queue, t: Tx): set<Slot> { set s | s in q.bySlot && s.0 == t.sender && t.nonce <= s.1 }

  function Shifted(d: Queue, s: Slot): Queue
    requires s in d.bySlot
  {
    var x := d.bySlot[s];
    d.(current := d.current - {x}, byHash := d.byHash - {x.hash}, bySlot := d.bySlot - {s}, future := d.future[s := x])
  }

  lemma ShiftFirst(d: Queue, left: set<Slot>, s: Slot)
    requires Agree(d) && s in left && left <= d.bySlot.Keys && left !! d.future.Keys
    ensures var r, less := Shifted(d, s), left - {s};
            Agree(r) && less <= r.bySlot.Keys && less !! r.future.Keys && Demoted(r, less) == Demoted(d, left)
  {
    var r, less, x := Shifted(d, s), left - {s}, d.bySlot[s];
    ShiftAgree(d, s);
    ShiftCurrent(d, left, s);
    ShiftHash(d, left, s);
    ShiftSlots(d, left, s);
  }

  lemma ShiftAgree(d: Queue, s: Slot)
    requires Agree(d) && s in d.bySlot
    ensures Agree(Shifted(d, s))
  {
  }

  lemma ShiftCurrent(d: Queue, left: set<Slot>, s: Slot)
    requires Agree(d) && s in left && s in d.bySlot
    ensures Demoted(Shifted(d, s), left - {s}).current == Demoted(d, left).current
  {
  }

  lemma ShiftHash(d: Queue, left: set<Slot>, s: Slot)
    requires Agree(d) && s in left && s in d.bySlot
    ensures Demoted(Shifted(d, s), left - {s}).byHash == Demoted(d, left).byHash
  {
  }

  lemma ShiftSlots(d: Queue, left: set<Slot>, s: Slot)
    requires s in left && s in d.bySlot
    ensures Demoted(Shifted(d, s), left - {s}).bySlot == Demoted(d, left).bySlot
    ensures Demoted(Shifted(d, s), left - {s}).future == Demoted(d, left).future
  {
  }

  /** Each sender has lost its future transactions from the top, if any. */
  ghost predicate Trimmed(f: map<Slot, Tx>, g: map<Slot, Tx>) {
    && (forall s :: s in g ==> s in f && g[s] == f[s])
    && forall s, s' {:trigger Lower(s', s)} :: s in g && s' in f && Lower(s', s) ==> s' in g
  }

  predicate Lower(x: Slot, y: Slot) { x.0 == y.0 && x.1 < y.1 }

  lemma TopExists(f: map<Slot, Tx>) returns (s: Slot)
    requires f != map[]
    ensures s in f && forall s' :: s' in f && s'.0 == s.0 ==> s'.1 <= s.1
  {
    s :| s in f;
    var left := f.Keys - {s};
    while left != {}
      invariant left <= f.Keys && s in f
      invariant forall s' :: s' in f && s' !in left && s'.0 == s.0 ==> s'.1 <= s.1
    {
      var s' :| s' in left;
      left := left - {s'};
      if s'.0 == s.0 && s'.1 > s.1 { s := s'; }
    }
  }

  lemma TrimmedKeeps(q: Queue, g: map<Slot, Tx>)
    requires Consistent(q) && Trimmed(q.future, g)
    ensures Consistent(q.(future := g))
  {
  }

  lemma TrimMore(f: map<Slot, Tx>, g: map<Slot, Tx>, s: Slot)
    requires Trimmed(f, g) && s in g && forall s' :: s' in g && s'.0 == s.0 ==> s'.1 <= s.1
    ensures Trimmed(f, g - {s}) && |g - {s}| == |g| - 1
  {
    Smaller(g, s);
  }

  // ----- Offers -----

  /** The transaction is current or waits in the future. */
  predicate Holds(q: Queue, x: Tx) {
    x in q.current || (SlotOf(x) in q.future && q.future[SlotOf(x)] == x)
  }

  predicate SameSlot(x: Tx, y: Tx) { x.sender == y.sender && x.nonce == y.nonce }

  /** A transaction of the same sender and nonce offers strictly more. */
  ghost predicate HasBetter(q: Queue, t: Tx) {
    exists x :: Holds(q, x) && SameSlot(x, t) && x.gasPrice > t.gasPrice
  }

  /** Nothing but `t` has come in, and for its sender and nonce nothing else is held. */
  ghost predicate Replaced(q: Queue, r: Queue, t: Tx) {
    forall x :: Holds(r, x) ==> x == t || (Holds(q, x) && !SameSlot(x, t))
  }

  /** No sender and nonce that stay held go to a lower offer. */
  ghost predicate Raised(q: Queue, r: Queue) {
    forall x, y :: Holds(q, x) && Holds(r, y) && SameSlot(x, y) ==> x.gasPrice <= y.gasPrice
  }

  /** Different transactions held are of different senders or nonces. */
  lemma HeldApart(q: Queue, x: Tx, y: Tx)
    requires Consistent(q) && Holds(q, x) && Holds(q, y) && SameSlot(x, y)
    ensures x == y
  {
    assert SlotOf(x) == SlotOf(y);
  }

  lemma NoneRaised(q: Queue)
    requires Consistent(q)
    ensures Raised(q, q)
  {
    forall x, y | Holds(q, x) && Holds(q, y) && SameSlot(x, y) ensures x.gasPrice <= y.gasPrice {
      HeldApart(q, x, y);
    }
  }

  lemma OutbidMeans(q: Queue, t: Tx)
    requires Consistent(q)
    ensures Outbid(q, t) <==> HasBetter(q, t)
  {
    var s := SlotOf(t);
    if s in q.bySlot { assert Holds(q, q.bySlot[s]) && SlotOf(q.bySlot[s]) == s; }
    if s in q.future { assert SlotOf(q.future[s]) == s && Holds(q, q.future[s]); }
    if HasBetter(q, t) {
      var x :| Holds(q, x) && SameSlot(x, t) && x.gasPrice > t.gasPrice;
      assert SlotOf(x) == s;
    }
  }

  lemma {:induction false} RunHolds(q: Queue, sender: nat, nonce: nat, x: Tx)
    requires Holds(Run(q, sender, nonce), x)
    ensures Holds(q, x) || x in q.future.Values
    decreases |q.future|
  {
    var s := (sender, nonce);
    if s in q.future {
      Smaller(q.future, s);
      RunHolds(Promoted(q, s), sender, nonce + 1, x);
    }
  }

  lemma {:induction false} RunKeepsCurrent(q: Queue, sender: nat, nonce: nat, t: Tx)
    requires t in q.current
    ensures t in Run(q, sender, nonce).current
    decreases |q.future|
  {
    var s := (sender, nonce);
    if s in q.future {
      Smaller(q.future, s);
      RunKeepsCurrent(Promoted(q, s), sender, nonce + 1, t);
    }
  }

  /** A success that nobody outbid raises what it replaces. */
  lemma ReplacedRaises(q: Queue, r: Queue, t: Tx)
    requires Consistent(q) && Replaced(q, r, t) && !HasBetter(q, t)
    ensures Raised(q, r)
  {
    forall x, y | Holds(q, x) && Holds(r, y) && SameSlot(x, y) ensures x.gasPrice <= y.gasPrice {
      if y != t { HeldApart(q, x, y); }
    }
  }

  /** Over any sequence of imports the offer for a sender and nonce does not fall while it is held. */
  lemma {:induction false} OffersNeverFall(qs: seq<Queue>, xs: seq<Tx>)
    requires |qs| == |xs| > 0
    requires forall k :: 0 <= k < |qs| ==> Holds(qs[k], xs[k]) && SameSlot(xs[k], xs[0])
    requires forall k, l :: 0 <= k < l < |qs| && l == k + 1 ==> Raised(qs[k], qs[l])
    ensures xs[0].gasPrice <= xs[|xs| - 1].gasPrice
    decreases |qs|
  {
    var n := |qs| - 1;
    if n > 0 {
      OffersNeverFall(qs[..n], xs[..n]);
      assert Raised(qs[n - 1], qs[n]) && SameSlot(xs[n - 1], xs[n]);
    }
  }

  lemma SmallerSet(a: set<Tx>, b: set<Tx>, t: Tx)
    requires a <= b && t in b && t !in a
    ensures |a| < |b|
  {
    assert b == a + (b - a) && t in b - a;
  }

  // ----- The queue in place -----

  class TransactionQueue {
    const limit: nat
    const futureLimit: nat
    var known: set<nat>
    var dropped: set<nat>
    var current: set<Tx>
    var byHash: map<nat, Tx>
    var bySlot: map<Slot, Tx>
    var future: map<Slot, Tx>
    var futureSize: nat

    ghost function State(): Queue
      reads this
    {
      Queue(known, dropped, current, byHash, bySlot, future)
    }

    ghost predicate Valid()
      reads this
    {
      Consistent(State()) && futureSize == |future|
    }

    constructor (limit: nat, futureLimit: nat)
      ensures Valid() && current == {} && this.limit == limit && this.futureLimit == futureLimit
    {
      this.limit, this.futureLimit := limit, futureLimit;
      known, dropped, current, byHash, bySlot, future, futureSize := {}, {}, {}, map[], map[], map[], 0;
    }

    /** remove_WITH_LOCK */
    method Remove(h: nat) returns (found: bool)
      requires Valid()
      modifies this
      ensures Valid() && found == (h in old(byHash))
      ensures State() == if found then Without(old(State()), old(byHash)[h]) else old(State())
      ensures future == old(future) && dropped == old(dropped)
      ensures if found then
                known == old(known) - {h} && byHash == old(byHash) - {h} && current == old(current) - {old(byHash)[h]}
              else known == old(known) && byHash == old(byHash) && current == old(current)
    {
      if h !in byHash { return false; }
      var t := byHash[h];
      WithoutKeeps(State(), t);
      bySlot := bySlot - {SlotOf(t)};
      current := current - {t};
      byHash := byHash - {h};
      known := known - {h};
      assert State() == Without(old(State()), t);
      return true;
    }

    /** makeCurrent_WITH_LOCK: the run of nonces after `t` becomes current, then the future is cut to its limit. */
    method MakeCurrent(t: Tx)
      requires Valid()
      modifies this
      ensures Valid()
      ensures Settled(Run(old(State()), t.sender, t.nonce + 1), State(), futureLimit)
    {
      var nonce: nat := t.nonce + 1;
      while (t.sender, nonce) in future
        invariant Valid() && Run(State(), t.sender, nonce) == Run(old(State()), t.sender, t.nonce + 1)
        decreases |future|
      {
        Promote((t.sender, nonce));
        nonce := nonce + 1;
      }
      CutFuture();
    }

    method Promote(slot: Slot)
      requires Valid() && slot in future
      modifies this
      ensures Valid() && State() == Promoted(old(State()), slot) && |future| < |old(future)|
    {
      PromotedKeeps(State(), slot);
      Smaller(future, slot);
      var x := future[slot];
      future := future - {slot};
      bySlot := bySlot[slot := x];
      current := current + {x};
      byHash := byHash[x.hash := x];
      futureSize := futureSize - 1;
      assert State() == Promoted(old(State()), slot);
    }

    method CutFuture()
      requires Valid()
      modifies this`future, this`futureSize
      ensures Valid() && Trimmed(old(future), future)
      ensures |future| == if old(|future|) > futureLimit then futureLimit else old(|future|)
    {
      while futureSize > futureLimit
        invariant Valid() && Trimmed(old(future), future)
        invariant futureSize <= old(futureSize) && (old(futureSize) > futureLimit ==> futureSize >= futureLimit)
        invariant old(futureSize) <= futureLimit ==> futureSize == old(futureSize)
      {
        DropTop(old(future));
      }
    }

    /** The last transaction of some sender. */
    method DropTop(ghost f: map<Slot, Tx>)
      requires Valid() && futureSize > 0 && Trimmed(f, future)
      modifies this`future, this`futureSize
      ensures Valid() && Trimmed(f, future) && futureSize == old(futureSize) - 1
    {
      futureSize := futureSize - 1;
      ghost var top := TopExists(future);
      var s :| s in future && forall s' :: s' in future && s'.0 == s.0 ==> s'.1 <= s.1;
      TrimMore(f, future, s);
      TrimMore(future, future, s);
      TrimmedKeeps(State(), future - {s});
      future := future - {s};
    }

    method SetFuture(h: nat)
      requires Valid()
      modifies this
      ensures Valid()
      ensures State() == if h in old(byHash) then Demoted(old(State()), Tops(old(State()), old(byHash)[h]))
                else old(State())
      ensures h in old(byHash) ==> Waits(old(State()), State(), old(byHash)[h])
    {
      if h !in byHash { return; }
      var t := byHash[h];
      ghost var q := State();
      DemoteAll(set s | s in bySlot && s.0 == t.sender && t.nonce <= s.1);
      DemotedKeeps(q, Tops(q, t));
      DemotedWait(q, t);
    }

    method DemoteAll(out: set<Slot>)
      requires Valid() && out <= bySlot.Keys
      modifies this
      ensures State() == Demoted(old(State()), out) && futureSize == |future|
    {
      var left := out;
      while left != {}
        invariant Agree(State()) && futureSize == |future| && left <= bySlot.Keys && left !! future.Keys
        invariant Demoted(State(), left) == Demoted(old(State()), out)
        decreases left
      {
        var s :| s in left;
        ShiftFirst(State(), left, s);
        Demote(s);
        left := left - {s};
      }
      NoneDemoted(State());
    }

    method Demote(s: Slot)
      requires s in bySlot && s !in future && futureSize == |future|
      modifies this
      ensures State() == Shifted(old(State()), s) && futureSize == |future|
    {
      var x := bySlot[s];
      byHash := byHash - {x.hash};
      future := future[s := x];
      assert future.Keys == old(future).Keys + {s};
      current := current - {x};
      futureSize := futureSize + 1;
      bySlot := bySlot - {s};
    }

    method Drop(h: nat)
      requires Valid()
      modifies this
      ensures Valid()
      ensures var q := old(State());
              State() == if h !in q.known then q
                         else var d := q.(dropped := q.dropped + {h}); if h in q.byHash
                             then Without(d, q.byHash[h]) else d
    {
      if h !in known { return; }
      dropped := dropped + {h};
      var _ := Remove(h);
    }

    method DropGood(t: Tx)
      requires Valid()
      modifies this
      ensures Valid() && t.hash !in byHash
      ensures var r := Run(old(State()), t.sender, t.nonce + 1);
              var kept := r.(future := future);
              && Settled(r, kept, futureLimit)
              && State() == if t.hash in r.byHash then Without(kept, r.byHash[t.hash]) else kept
    {
      MakeCurrent(t);
      if t.hash !in known { return; }
      var _ := Remove(t.hash);
    }

    method Clear()
      modifies this
      ensures Valid() && State() == Queue({}, old(dropped), {}, map[], map[], map[])
    {
      known, current, bySlot, byHash, future, futureSize := {}, {}, map[], map[], map[], 0;
    }

    /** The checks of import, and manageImport_WITH_LOCK. `nonceOk` and `blockLimitOk` are the chain's answers. */
    method Import(t: Tx, ignoreDropped: bool, nonceOk: bool, blockLimitOk: bool) returns (a: Answer)
      requires Valid()
      modifies this
      ensures Valid()
      ensures a == Verdict(old(State()), t, ignoreDropped, nonceOk, blockLimitOk)
      ensures a != Success ==> State() == old(State())
      ensures a == Success ==> |current| <= limit && Imported(old(State()), t, State(), futureLimit, limit)
      ensures a == AlreadyKnown <==> t.hash in old(known)
      ensures a == AlreadyInChain <==> t.hash !in old(known) && t.hash in old(dropped) && ignoreDropped
      ensures a == NonceCheckFail <==> Unseen(old(State()), t, ignoreDropped) && !nonceOk
      ensures a == BlockLimitCheckFail <==> Unseen(old(State()), t, ignoreDropped) && nonceOk && !blockLimitOk
      ensures a == OverbidGasPrice <==>
                Unseen(old(State()), t, ignoreDropped) && nonceOk && blockLimitOk && HasBetter(old(State()), t)
      ensures a == Success ==> Replaced(old(State()), State(), t)
      ensures Raised(old(State()), State())
    {
      NoneRaised(State());
      OutbidMeans(State(), t);
      if t.hash in known { return AlreadyKnown; }
      if t.hash in dropped && ignoreDropped { return AlreadyInChain; }
      if !nonceOk { return NonceCheckFail; }
      if !blockLimitOk { return BlockLimitCheckFail; }
      var free := Vacate(t);
      if !free { return OverbidGasPrice; }
      InsertCurrent(t);
      CutCurrent();
      ImportReplaces(old(State()), t, State(), futureLimit, limit);
      ReplacedRaises(old(State()), State(), t);
      return Success;
    }

    /** An earlier transaction of the same sender and nonce makes room unless it offers more. */
    method Vacate(t: Tx) returns (free: bool)
      requires Valid() && t.hash !in known
      modifies this
      ensures Valid() && t.hash !in known
      ensures free == !Outbid(old(State()), t) == !HasBetter(old(State()), t)
      ensures State() == if free then Vacated(old(State()), t) else old(State())
      ensures free ==> SlotOf(t) !in bySlot && SlotOf(t) !in future
    {
      OutbidMeans(State(), t);
      if SlotOf(t) in bySlot {
        if t.gasPrice < bySlot[SlotOf(t)].gasPrice { return false; }
        var _ := Remove(bySlot[SlotOf(t)].hash);
      }
      if SlotOf(t) in future {
        if t.gasPrice < future[SlotOf(t)].gasPrice { return false; }
        Smaller(future, SlotOf(t));
        future := future - {SlotOf(t)};
        futureSize := futureSize - 1;
      }
      return true;
    }

    method InsertCurrent(t: Tx)
      requires Valid() && t.hash !in known && SlotOf(t) !in bySlot && SlotOf(t) !in future
      modifies this
      ensures Valid()
      ensures Settled(Entered(old(State()), t), State(), futureLimit)
    {
      ghost var noted := Noted(State(), t);
      Enter(t);
      assert State() == noted;
      MakeCurrent(t);
    }

    method Enter(t: Tx)
      requires Valid() && t.hash !in known && SlotOf(t) !in bySlot && SlotOf(t) !in future
      modifies this
      ensures Valid() && State() == Noted(old(State()), t)
    {
      WithKeeps(State().(known := known + {t.hash}), t);
      bySlot := bySlot[SlotOf(t) := t];
      current := current + {t};
      byHash := byHash[t.hash := t];
      known := known + {t.hash};
      assert State() == Noted(old(State()), t);
    }

    /** Over the limit, transactions go from the end of the priority order, which may be any of them. */
    method CutCurrent()
      requires Valid()
      modifies this
      ensures Valid() && Cut(old(State()), State(), limit)
    {
      while |current| > limit
        invariant Valid() && CutSoFar(old(State()), State())
        invariant |current| <= |old(current)| && (|old(current)| > limit ==> |current| >= limit)
        invariant |old(current)| <= limit ==> |current| == |old(current)|
        decreases |current|
      {
        var t :| t in current;
        ghost var before := State();
        var _ := Remove(t.hash);
        CutOne(old(State()), before, t);
      }
    }
  }

  /** Neither known nor to be refused as dropped. */
  predicate Unseen(q: Queue, t: Tx, ignoreDropped: bool) {
    t.hash !in q.known && !(t.hash in q.dropped && ignoreDropped)
  }

  /** The earlier holder of the slot is gone. */
  function Vacated(q: Queue, t: Tx): Queue {
    if SlotOf(t) in q.bySlot then Without(q, q.bySlot[SlotOf(t)])
    else if SlotOf(t) in q.future then q.(future := q.future - {SlotOf(t)})
    else q
  }

  /** The transaction is current and known, and the run behind it has followed. */
  function Entered(q: Queue, t: Tx): Queue { Run(Noted(q, t), t.sender, t.nonce + 1) }

  function Noted(q: Queue, t: Tx): Queue { With(q.(known := q.known + {t.hash}), t) }

  /** `s` is `r` with its future cut to the limit, each sender losing from the top. */
  ghost predicate Settled(r: Queue, s: Queue, futureLimit: nat) {
    && s == r.(future := s.future) && Trimmed(r.future, s.future)
    && |s.future| == if |r.future| > futureLimit then futureLimit else |r.future|
  }

  /** Some current transactions have been forgotten, and nothing else has changed. */
  ghost predicate CutSoFar(q: Queue, r: Queue) {
    && r.current <= q.current && r.dropped == q.dropped && r.future == q.future
    && r.known == q.known - (set x | x in q.current && x !in r.current :: x.hash)
  }

  ghost predicate Cut(q: Queue, r: Queue, limit: nat) {
    CutSoFar(q, r) && |r.current| == if |q.current| > limit then limit else |q.current|
  }

  lemma CutOne(q: Queue, r: Queue, t: Tx)
    requires Consistent(q) && Consistent(r) && CutSoFar(q, r) && t in r.current
    ensures CutSoFar(q, Without(r, t))
  {
  }

  /** A successful import: room is made, the transaction and its run enter, then both parts are cut to their limits. */
  ghost predicate Imported(q: Queue, t: Tx, r: Queue, futureLimit: nat, limit: nat) {
    var e := Entered(Vacated(q, t), t);
    exists s :: Settled(e, s, futureLimit) && Cut(s, r, limit)
  }

  /** An import lets nothing but the transaction in, and puts it in the place of what it replaces. */
  lemma ImportReplaces(q: Queue, t: Tx, r: Queue, futureLimit: nat, limit: nat)
    requires Consistent(q) && Imported(q, t, r, futureLimit, limit)
    ensures Replaced(q, r, t)
  {
    forall x | Holds(r, x) && x != t ensures Holds(q, x) && !SameSlot(x, t) {
      var s := ImportStages(q, t, r, futureLimit, limit);
      SettledHolds(Entered(Vacated(q, t), t), s, futureLimit, x);
      EnteredHolds(Vacated(q, t), t, x);
      VacatedHolds(q, t, x);
    }
  }

  lemma ImportStages(q: Queue, t: Tx, r: Queue, futureLimit: nat, limit: nat) returns (s: Queue)
    requires Imported(q, t, r, futureLimit, limit)
    ensures Settled(Entered(Vacated(q, t), t), s, futureLimit) && Cut(s, r, limit)
  {
    s :| Settled(Entered(Vacated(q, t), t), s, futureLimit) && Cut(s, r, limit);
  }

  lemma SettledHolds(e: Queue, s: Queue, futureLimit: nat, x: Tx)
    requires Settled(e, s, futureLimit) && Holds(s, x)
    ensures Holds(e, x)
  {
  }

  lemma EnteredHolds(v: Queue, t: Tx, x: Tx)
    requires (forall k :: k in v.future ==> SlotOf(v.future[k]) == k)
    requires Holds(Entered(v, t), x) && x != t
    ensures Holds(v, x)
  {
    RunHolds(Noted(v, t), t.sender, t.nonce + 1, x);
  }

  lemma VacatedHolds(q: Queue, t: Tx, x: Tx)
    requires Consistent(q) && Holds(Vacated(q, t), x)
    ensures Holds(q, x) && !SameSlot(x, t)
  {
  }

  /** Unless there are then too many, the imported transaction is current. */
  lemma EntersUnlessFull(q: Queue, t: Tx, r: Queue, futureLimit: nat, limit: nat)
    requires Imported(q, t, r, futureLimit, limit) && |Entered(Vacated(q, t), t).current| <= limit
    ensures t in r.current
  {
    var s := ImportStages(q, t, r, futureLimit, limit);
    EnteredCurrent(Vacated(q, t), t);
    if t !in r.current {
      SmallerSet(r.current, s.current, t);
    }
  }

  lemma EnteredCurrent(v: Queue, t: Tx)
    ensures t in Entered(v, t).current
  {
    RunKeepsCurrent(Noted(v, t), t.sender, t.nonce + 1, t);
  }

  lemma NoneDemoted(q: Queue)
    ensures Demoted(q, {}) == q
  {
    var d := Demoted(q, {});
    assert d.current == q.current && d.byHash == q.byHash && d.bySlot == q.bySlot && d.future == q.future;
  }

  predicate Outbid(q: Queue, t: Tx) {
    || (SlotOf(t) in q.bySlot && t.gasPrice < q.bySlot[SlotOf(t)].gasPrice)
    || (SlotOf(t) in q.future && t.gasPrice < q.future[SlotOf(t)].gasPrice)
  }

  /** What import answers, in the order of its checks. */
  function Verdict(q: Queue, t: Tx, ignoreDropped: bool, nonceOk: bool, blockLimitOk: bool): Answer {
    if t.hash in q.known then AlreadyKnown
    else if t.hash in q.dropped && ignoreDropped then AlreadyInChain
    else if !nonceOk then NonceCheckFail
    else if !blockLimitOk then BlockLimitCheckFail
    else if Outbid(q, t) then OverbidGasPrice
    else Success
  }
}
