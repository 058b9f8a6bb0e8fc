/**
 The consensus nodes as a system, and what every step of one node keeps.

 `n` nodes take steps in any order. At most (n-1)/3 of them are faulty and may
 send anything. A request that verifies under the key of a correct node shows that
 the node signed its hash and that it signed its other fields (cvpoc/Common.h:90-94);
 only with `Setup.bound` does it show that the node sent this very request, of this
 kind. All prepare requests that reach correct nodes for one (height, view) carry
 the same block, named by `Setup.proposal`.
 */
module PbftSystem {
  import opened Wrappers
  import opened Pbft

  /** `bound` is the hypothesis that signatures tie a request's kind, hash and other fields together. */
  datatype Setup = Setup(env: Env, faulty: set<nat>, proposal: (nat, nat) -> Hash, number: Hash -> nat, bound: bool) {

    function Value(height: nat, view: nat): Hash { env.execute(proposal(height, view)) }

    ghost predicate Valid() {
      && env.n > 0
      && (forall i :: i in faulty ==> i < env.n)
      && |faulty| <= env.MaxFaulty()
      // an executed block carries the height it was proposed for
      && (forall h: nat, v: nat {:trigger Value(h, v)} :: number(Value(h, v)) == h)
    }

    predicate Correct(i: nat) { i < env.n && i !in faulty }
  }

  /** The nodes' states; each node's `out` is the history of what it has broadcast. */
  type System = seq<Node>

  datatype Event =
    | RecvPrepare(m: Msg, valid: bool)
    | RecvSign(m: Msg)
    | RecvCommit(m: Msg)
    | RecvViewChange(m: Msg, known: bool, order: seq<(nat, nat)>)
    | ViewTimeout
    | BlockReported(number: nat, hash: Hash)
    | FutureBlock(valid: bool)
    | SealCheck(valid: bool)
    | Seal(hash: Hash)
    | Garbage

  predicate Enabled(env: Env, s: Node, e: Event) {
    match e
    case RecvViewChange(m, _, order) => Enumerates(StoreRequest(s, m).viewChanges, order)
    case Seal(_) => MaySeal(env, s)
    case _ => true
  }

  function Apply(env: Env, s: Node, e: Event): Node
    requires Enabled(env, s, e)
  {
    match e
    case RecvPrepare(m, valid) => HandlePrepare(env, s, m, false, valid)
    case RecvSign(m) => HandleSign(env, s, m)
    case RecvCommit(m) => HandleCommit(env, s, m)
    case RecvViewChange(m, known, order) => HandleViewChange(env, s, m, known, order)
    case ViewTimeout => Timeout(env, s)
    case BlockReported(number, hash) => Report(s, number, hash)
    case FutureBlock(valid) => HandleFuture(env, s, valid)
    case SealCheck(valid) => ShouldSeal(env, s, valid)
    case Seal(hash) => Propose(env, s, hash)
    case Garbage => CollectGarbage(s)
  }

  /** The node signed this block hash, in some packet. */
  ghost predicate SentHash(s: Node, hash: Hash) { exists p :: p in s.out && p.m.hash == hash }

  /** The node signed this height and view together, in some packet. */
  ghost predicate SentFields(s: Node, height: nat, view: nat) {
    exists p :: p in s.out && p.m.height == height && p.m.view == view
  }

  /** What the signatures of `p` show about the node that made them. */
  ghost predicate Vouched(su: Setup, s: Node, p: Packet) {
    if su.bound then p in s.out else SentHash(s, p.m.hash) && SentFields(s, p.m.height, p.m.view)
  }

  /** A vote or request that verifies under a correct node's key is vouched for by it. */
  ghost predicate Authentic(su: Setup, sys: System, p: Packet)
    requires |sys| == su.env.n
  {
    CheckSign(su.env, p.m) && su.Correct(p.m.idx) ==> Vouched(su, sys[p.m.idx], p)
  }

  predicate OneProposal(su: Setup, m: Msg) {
    m.hash == su.proposal(m.height, m.view)
  }

  /** Votes and requests that arrive are authentic. */
  ghost predicate Delivered(su: Setup, sys: System, e: Event)
    requires |sys| == su.env.n
  {
    match e
    case RecvSign(m) => Authentic(su, sys, SignPkt(m))
    case RecvCommit(m) => Authentic(su, sys, CommitPkt(m))
    case RecvViewChange(m, _, _) => Authentic(su, sys, ViewChangePkt(m))
    case _ => true
  }

  /** Proposals are the one of their height and view. */
  predicate OnlyProposals(su: Setup, s: Node, e: Event) {
    match e
    case RecvPrepare(m, _) => OneProposal(su, m)
    case SealCheck(_) =>
      ReProposes(su.env, s) ==> s.committed.value.hash == su.proposal(s.consensus, s.view)
    case Seal(hash) => hash == su.proposal(s.consensus, s.view)
    case _ => true
  }

  ghost predicate Allowed(su: Setup, sys: System, s: Node, e: Event)
    requires |sys| == su.env.n
  {
    Delivered(su, sys, e) && OnlyProposals(su, s, e)
  }

  ghost predicate Init(su: Setup, sys: System) {
    |sys| == su.env.n && forall i :: 0 <= i < |sys| ==> sys[i] == Initial(i)
  }

  ghost predicate Step(su: Setup, sys: System, sys': System, i: nat, e: Event) {
    && |sys| == |sys'| == su.env.n
    && su.Correct(i)
    && Enabled(su.env, sys[i], e)
    && Allowed(su, sys, sys[i], e)
    && sys' == sys[i := Apply(su.env, sys[i], e)]
  }

  ghost predicate Next(su: Setup, sys: System, sys': System) {
    exists i, e :: Step(su, sys, sys', i, e)
  }

  ghost predicate Run(su: Setup, run: seq<System>) {
    && |run| > 0
    && Init(su, run[0])
    && forall t, u :: 0 <= t < u < |run| && u == t + 1 ==> Next(su, run[t], run[u])
  }

  // ----- The node invariant that carries the locks -----

  predicate Before(h: nat, v: nat, h': nat, v': nat) { h < h' || (h == h' && v <= v') }

  /** Every vote was cast for the proposal of its own height and view, no later than where the node now is. */
  ghost predicate VotesPlaced(su: Setup, s: Node) {
    && (forall m {:trigger SignPkt(m)} :: SignPkt(m) in s.out ==>
          m.idx == s.idx && Before(m.height, m.view, s.consensus, s.view) && m.hash == su.Value(m.height, m.view))
    && (forall m {:trigger CommitPkt(m)} :: CommitPkt(m) in s.out ==>
          m.idx == s.idx && Before(m.height, m.view, s.consensus, s.view) && m.hash == su.Value(m.height, m.view))
  }

  /** A commit vote at the height in progress is remembered by the lock. */
  ghost predicate LockHeld(su: Setup, s: Node) {
    forall m {:trigger CommitPkt(m)} :: CommitPkt(m) in s.out && m.height == s.consensus ==>
      Locked(s, s.consensus) && s.committed.value.hash == su.proposal(m.height, m.view)
  }

  /** After a commit vote the node signs only the same proposal in later views of that height. */
  ghost predicate Faithful(su: Setup, s: Node) {
    forall c, m {:trigger CommitPkt(c), SignPkt(m)} ::
      CommitPkt(c) in s.out && SignPkt(m) in s.out && c.height == m.height && c.view < m.view ==>
        su.proposal(c.height, c.view) == su.proposal(m.height, m.view)
  }

  /** What the prepare slot tells, including a slot left over from a finished height. */
  ghost predicate PrepareSlot(su: Setup, s: Node) {
    s.prepare.Some? ==>
      var p := s.prepare.value;
      && p.height <= s.consensus
      && p.hash == su.Value(p.height, p.view)
      && (forall m {:trigger SignPkt(m)} :: SignPkt(m) in s.out && m.height == p.height ==> m.view <= p.view)
      && (p.height < s.consensus ==>
            && (forall m {:trigger SignPkt(m)} :: SignPkt(m) in s.out ==> m.height < s.consensus)
            && (forall m {:trigger CommitPkt(m)} :: CommitPkt(m) in s.out ==> m.height < s.consensus))
      && (p.height == s.consensus ==>
            && p.view == s.view
            && s.raw.Some? && s.raw.value.height == s.consensus
            && s.raw.value.hash == su.proposal(s.consensus, s.view)
            && (forall m {:trigger CommitPkt(m)} :: CommitPkt(m) in s.out && m.height == s.consensus ==>
                  su.proposal(m.height, m.view) == su.proposal(s.consensus, s.view)))
  }

  ghost predicate Core(su: Setup, s: Node) {
    VotesPlaced(su, s) && LockHeld(su, s) && Faithful(su, s) && PrepareSlot(su, s)
    && (s.future.Some? ==> OneProposal(su, s.future.value))
  }

  // ----- Cached votes -----

  predicate Filed(env: Env, m: Msg, h: Hash, k: Signature) {
    m.hash == h && m.sig == k && CheckSign(env, m)
  }

  predicate WellKept(env: Env, cache: map<Hash, Votes>) {
    forall h, k :: h in cache && k in cache[h] ==> Filed(env, cache[h][k], h, k)
  }

  predicate InView(cache: map<Hash, Votes>, p: Msg) {
    forall k :: p.hash in cache && k in cache[p.hash] ==> cache[p.hash][k].view == p.view
  }

  ghost predicate Caches(su: Setup, s: Node) {
    && s.idx < su.env.n
    && WellKept(su.env, s.signs) && WellKept(su.env, s.commits)
    && (s.prepare.Some? ==> InView(s.signs, s.prepare.value) && InView(s.commits, s.prepare.value))
  }

  // ----- View changes -----

  predicate ViewOrder(s: Node) {
    && s.view <= s.toView
    && forall v, i :: v in s.viewChanges && i in s.viewChanges[v] ==>
         v > s.view && s.viewChanges[v][i].view == v && s.viewChanges[v][i].idx == i && i != s.idx
  }

  // ----- Lemmas on Core -----

  /** Casting the commit vote of the prepare slot and taking the lock. */
  lemma LockKeepsCore(su: Setup, s: Node, s': Node)
    requires Core(su, s) && s.prepare.Some? && s.prepare.value.view == s.view
    requires s'.idx == s.idx && s'.view == s.view && s'.consensus == s.consensus
    requires s'.raw == s.raw && s'.prepare == s.prepare && s'.future == s.future
    requires s'.committed == s.raw
    requires s'.out == s.out + [CommitPkt(Own(s.idx, s.prepare.value.height, s.view, s.prepare.value.hash))]
    ensures Core(su, s')
  {
    var p := s.prepare.value;
    var own := Own(s.idx, p.height, s.view, p.hash);
    assert forall m :: SignPkt(m) in s'.out <==> SignPkt(m) in s.out;
    assert forall m :: CommitPkt(m) in s'.out <==> CommitPkt(m) in s.out || m == own;
  }

  /** Broadcasts other than votes leave the invariant alone. */
  lemma OtherPacketKeepsCore(su: Setup, s: Node, s': Node, p: Packet)
    requires Core(su, s) && !p.SignPkt? && !p.CommitPkt?
    requires s' == s.(out := s.out + [p])
    ensures Core(su, s')
  {
    assert forall m :: SignPkt(m) in s'.out <==> SignPkt(m) in s.out;
    assert forall m :: CommitPkt(m) in s'.out <==> CommitPkt(m) in s.out;
  }

  lemma CheckAndCommitKeepsCore(su: Setup, s: Node)
    requires Core(su, s)
    ensures Core(su, CheckAndCommit(su.env, s))
  {
    if s.prepare.Some? && |VotesFor(s.signs, s.prepare.value.hash)| == su.env.Quorum()
       && s.prepare.value.view == s.view {
      var s1 := BroadcastCommit(s.(committed := s.raw), s.prepare.value);
      LockKeepsCore(su, s, s1);
    }
  }

  /** Accepting a proposal that the lock, if any, agrees with. */
  lemma AcceptKeepsCore(su: Setup, s: Node, leader: nat)
    requires Core(su, s)
    requires s.raw.Some? && s.raw.value.height == s.consensus
    requires s.raw.value.hash == su.proposal(s.consensus, s.view)
    requires Locked(s, s.consensus) ==> s.committed.value.hash == su.proposal(s.consensus, s.view)
    ensures Core(su, Accept(su.env, s, s.consensus, s.view, leader, su.Value(s.consensus, s.view)))
  {
    var x := su.Value(s.consensus, s.view);
    var p := Msg(s.consensus, s.view, leader, x, Signature(s.idx, x), true);
    var s1 := BroadcastSign(AddPrepare(s, p), p);
    var own := Own(s.idx, s.consensus, s.view, x);
    assert forall m :: SignPkt(m) in s1.out <==> SignPkt(m) in s.out || m == own;
    assert forall m :: CommitPkt(m) in s1.out <==> CommitPkt(m) in s.out;
    assert Core(su, s1);
    CheckAndCommitKeepsCore(su, s1);
  }

  lemma RawKeepsCore(su: Setup, s: Node, m: Msg)
    requires Core(su, s) && m.height == s.consensus && m.view == s.view && OneProposal(su, m)
    ensures Core(su, s.(raw := Some(m)))
  {
  }

  lemma PrepareKeepsCore(su: Setup, s: Node, m: Msg, self: bool, valid: bool)
    requires Core(su, s) && OneProposal(su, m)
    ensures Core(su, HandlePrepare(su.env, s, m, self, valid))
  {
    if !Duplicate(s, m) && m.height == s.consensus && m.view == s.view {
      var s1 := s.(raw := Some(m));
      RawKeepsCore(su, s, m);
      if !(Locked(s1, m.height) && s1.committed.value.hash != m.hash) {
        AcceptKeepsCore(su, s1, m.idx);
      }
    }
  }

  lemma ReportKeepsCore(su: Setup, s: Node, number: nat, hash: Hash)
    requires Core(su, s)
    ensures Core(su, Report(s, number, hash))
  {
    var s' := Report(s, number, hash);
    assert s'.out == s.out;
  }

  /** The invariant looks at these fields only. */
  lemma SameCore(su: Setup, s: Node, s': Node)
    requires Core(su, s)
    requires s'.idx == s.idx && s'.view == s.view && s'.consensus == s.consensus && s'.out == s.out
    requires s'.raw == s.raw && s'.prepare == s.prepare && s'.committed == s.committed && s'.future == s.future
    ensures Core(su, s')
  {
  }

  lemma ViewPacketKeepsCore(su: Setup, s: Node)
    requires Core(su, s)
    ensures Core(su, BroadcastViewChange(s))
  {
    OtherPacketKeepsCore(su, s, BroadcastViewChange(s), ViewChangePkt(Own(s.idx, s.highest, s.toView, s.highestHash)));
  }

  lemma ChangeViewKeepsCore(su: Setup, s: Node)
    requires Core(su, s) && s.view <= s.toView
    ensures Core(su, CheckAndChangeView(su.env, s))
  {
  }

  lemma TimeoutKeepsCore(su: Setup, s: Node, s1: Node)
    requires Core(su, s) && s.view <= s.toView
    requires s1 == s.(leaderFailed := true, toView := s.toView + 1, viewChanges := s1.viewChanges)
    ensures Core(su, CheckAndChangeView(su.env, BroadcastViewChange(s1)))
  {
    SameCore(su, s, s1);
    ViewPacketKeepsCore(su, s1);
    ChangeViewKeepsCore(su, BroadcastViewChange(s1));
  }

  lemma StoredKeepsCore(su: Setup, s: Node, m: Msg, order: seq<(nat, nat)>)
    requires Core(su, s) && s.view <= s.toView && Listed(StoreRequest(s, m).viewChanges, order)
    ensures Core(su, CheckAndChangeView(su.env, StoreRequest(s, m)))
    ensures Core(su, FastViewChange(su.env, StoreRequest(s, m), order))
  {
    SameCore(su, s, StoreRequest(s, m));
    ChangeViewKeepsCore(su, StoreRequest(s, m));
    SameCore(su, s, FastViewChange(su.env, StoreRequest(s, m), order));
  }

  lemma ViewChangeKeepsCore(su: Setup, s: Node, m: Msg, known: bool, order: seq<(nat, nat)>)
    requires Core(su, s) && s.view <= s.toView && Listed(StoreRequest(s, m).viewChanges, order)
    ensures Core(su, HandleViewChange(su.env, s, m, known, order))
  {
    ViewPacketKeepsCore(su, s);
    var s1 := if m.view + 1 < s.toView then BroadcastViewChange(s) else s;
    StoredKeepsCore(su, s1, m, order);
  }

  lemma ShouldSealKeepsCore(su: Setup, s: Node, valid: bool)
    requires Core(su, s)
    requires ReProposes(su.env, s) ==> s.committed.value.hash == su.proposal(s.consensus, s.view)
    ensures Core(su, ShouldSeal(su.env, s, valid))
  {
    if ReProposes(su.env, s) {
      var m := Own(s.idx, s.committed.value.height, s.view, s.committed.value.hash);
      var s1 := s.(out := s.out + [PreparePkt(m)]);
      OtherPacketKeepsCore(su, s, s1, PreparePkt(m));
      PrepareKeepsCore(su, s1, m, true, valid);
    }
  }

  lemma ProposeKeepsCore(su: Setup, s: Node)
    requires Core(su, s) && MaySeal(su.env, s)
    ensures Core(su, Propose(su.env, s, su.proposal(s.consensus, s.view)))
  {
    var m := Own(s.idx, s.consensus, s.view, su.proposal(s.consensus, s.view));
    var s1 := s.(out := s.out + [PreparePkt(m)]);
    OtherPacketKeepsCore(su, s, s1, PreparePkt(m));
    RawKeepsCore(su, s1, m);
    AcceptKeepsCore(su, s1.(raw := Some(m)), s.idx);
    assert s1.(raw := Some(m)) == s.(out := s.out + [PreparePkt(m)], raw := Some(m));
  }

  lemma FutureKeepsCore(su: Setup, s: Node, valid: bool)
    requires Core(su, s)
    ensures Core(su, HandleFuture(su.env, s, valid))
  {
    if s.future.Some? {
      PrepareKeepsCore(su, s, s.future.value, false, valid);
      var s1 := HandlePrepare(su.env, s, s.future.value, false, valid);
      assert Core(su, s1.(future := None));
    }
  }

  lemma SignKeepsCore(su: Setup, s: Node, m: Msg)
    requires Core(su, s)
    ensures Core(su, HandleSign(su.env, s, m))
  {
    var s1 := s.(signs := AddVote(s.signs, m));
    SameCore(su, s, s1);
    CheckAndCommitKeepsCore(su, s1);
  }

  lemma ApplyKeepsCore(su: Setup, sys: System, s: Node, e: Event)
    requires |sys| == su.env.n && Core(su, s) && ViewOrder(s)
    requires Enabled(su.env, s, e) && Allowed(su, sys, s, e)
    ensures Core(su, Apply(su.env, s, e))
  {
    match e
    case RecvPrepare(m, valid) => PrepareKeepsCore(su, s, m, false, valid);
    case RecvSign(m) => SignKeepsCore(su, s, m);
    case RecvCommit(m) => SameCore(su, s, HandleCommit(su.env, s, m));
    case RecvViewChange(m, known, order) => ViewChangeKeepsCore(su, s, m, known, order);
    case ViewTimeout => TimeoutKeepsCore(su, s, BeforeTimeout(s));
    case BlockReported(number, hash) => ReportKeepsCore(su, s, number, hash);
    case FutureBlock(valid) => FutureKeepsCore(su, s, valid);
    case SealCheck(valid) => ShouldSealKeepsCore(su, s, valid);
    case Seal(hash) => ProposeKeepsCore(su, s);
    case Garbage => SameCore(su, s, CollectGarbage(s));
  }
}
