/**
 Views: what the fast path picks, that height and view only move forward, and who stands behind a view entry.
 */
module PbftViews {
  import opened Wrappers
  import opened Pbft
  import opened PbftSystem
  import opened PbftVotes

  // ----- Views -----

  /** A stored request the scan may count: for a view above the wanted one, made no lower than the head. */
  predicate Eligible(s: Node, e: (nat, nat)) {
    e.0 > s.toView && e.0 in s.viewChanges && e.1 in s.viewChanges[e.0] && s.viewChanges[e.0][e.1].height >= s.highest
  }

  ghost predicate Met(s: Node, before: seq<(nat, nat)>, i: nat) {
    exists e :: e in before && e.1 == i && Eligible(s, e)
  }

  /** The first eligible request of its node in the order of the scan. */
  ghost predicate First(s: Node, order: seq<(nat, nat)>, k: int) {
    0 <= k < |order| && Eligible(s, order[k]) && !Met(s, order[..k], order[k].1)
  }

  /** `least` is the least view in which a node is first met. */
  ghost predicate LeastFirst(s: Node, order: seq<(nat, nat)>, least: Option<nat>) {
    && (least.Some? ==> exists k :: First(s, order, k) && order[k].0 == least.value)
    && forall k :: First(s, order, k) ==> least.Some? && least.value <= order[k].0
  }

  /** `views` holds each node's highest eligible view. */
  ghost predicate Highest(s: Node, order: seq<(nat, nat)>, views: map<nat, nat>) {
    && (forall i :: i in views ==> (views[i], i) in order && Eligible(s, (views[i], i)))
    && forall e :: e in order && Eligible(s, e) ==> e.1 in views && e.0 <= views[e.1]
  }

  /** Something is found when anything counts, and it is no higher than any node's highest. */
  ghost predicate Under(r: Scan) {
    (r.views == map[] <==> r.minView == None) && forall i :: i in r.views ==>
        r.minView.Some? && r.minView.value <= r.views[i]
  }

  /**
   What the scan gathers, for every order: each node's highest eligible view, and as minimum the least of the views
   in which the nodes are first met. A lower request of a node that comes later is not looked at.
   */
  lemma {:induction false} ScanFinds(s: Node, order: seq<(nat, nat)>)
    requires Listed(s.viewChanges, order)
    ensures var r := ScanAll(s, order);
            Highest(s, order, r.views) && LeastFirst(s, order, r.minView) && Under(r)
  {
    if order != [] {
      var k := |order| - 1;
      var init := order[..k];
      assert forall e :: e in init ==> e in order;
      ScanFinds(s, init);
      assert order[k] in order;
      assert order == init + [order[k]];
      assert ScanAll(s, order) == ScanOne(s, ScanAll(s, init), order[k].0, order[k].1);
      ScanStep(s, init, ScanAll(s, init), order[k]);
    }
  }

  lemma ScanStep(s: Node, init: seq<(nat, nat)>, acc: Scan, e: (nat, nat))
    requires e.0 in s.viewChanges && e.1 in s.viewChanges[e.0]
    requires Highest(s, init, acc.views) && LeastFirst(s, init, acc.minView) && Under(acc)
    ensures var r := ScanOne(s, acc, e.0, e.1);
            Highest(s, init + [e], r.views) && LeastFirst(s, init + [e], r.minView) && Under(r)
  {
    HighestStep(s, init, acc, e);
    LeastStep(s, init, acc, e);
  }

  lemma HighestStep(s: Node, init: seq<(nat, nat)>, acc: Scan, e: (nat, nat))
    requires e.0 in s.viewChanges && e.1 in s.viewChanges[e.0] && Highest(s, init, acc.views)
    ensures Highest(s, init + [e], ScanOne(s, acc, e.0, e.1).views)
  {
  }

  lemma LeastStep(s: Node, init: seq<(nat, nat)>, acc: Scan, e: (nat, nat))
    requires e.0 in s.viewChanges && e.1 in s.viewChanges[e.0] && Highest(s, init, acc.views)
    requires LeastFirst(s, init, acc.minView) && Under(acc)
    ensures LeastFirst(s, init + [e], ScanOne(s, acc, e.0, e.1).minView)
  {
    var order, least := init + [e], ScanOne(s, acc, e.0, e.1).minView;
    assert e.1 in acc.views ==> least == acc.minView;
    assert Eligible(s, e) && e.1 !in acc.views ==> least == LessOf(acc.minView, e.0);
    forall l | 0 <= l < |init| ensures First(s, order, l) <==> First(s, init, l) { FirstKept(s, init, e, l); }
    FirstLast(s, init, e, acc.views);
    assert order[|init|] == e;
    LeastJoin(s, init, acc.minView, e, least);
  }

  lemma FirstKept(s: Node, init: seq<(nat, nat)>, e: (nat, nat), l: nat)
    requires l < |init|
    ensures First(s, init + [e], l) <==> First(s, init, l)
  {
    assert (init + [e])[..l] == init[..l];
  }

  lemma FirstLast(s: Node, init: seq<(nat, nat)>, e: (nat, nat), views: map<nat, nat>)
    requires Highest(s, init, views)
    ensures First(s, init + [e], |init|) <==> Eligible(s, e) && e.1 !in views
  {
    assert (init + [e])[..|init|] == init;
    if e.1 in views { assert (views[e.1], e.1) in init && Met(s, init, e.1); }
  }

  lemma LeastJoin(s: Node, init: seq<(nat, nat)>, least: Option<nat>, e: (nat, nat), least': Option<nat>)
    requires LeastFirst(s, init, least)
    requires forall l :: 0 <= l < |init| ==> (First(s, init + [e], l) <==> First(s, init, l))
    requires least' == least || least' == LessOf(least, e.0)
    requires First(s, init + [e], |init|) ==> least' == LessOf(least, e.0)
    requires least' != least ==> First(s, init + [e], |init|)
    ensures LeastFirst(s, init + [e], least')
  {
    var order := init + [e];
    assert forall l :: 0 <= l < |init| ==> order[l] == init[l];
    if least'.Some? {
      if least' == least {
        var l :| First(s, init, l) && init[l].0 == least.value;
        assert First(s, order, l) && order[l].0 == least'.value;
      } else {
        assert First(s, order, |init|) && order[|init|].0 == least'.value;
      }
    }
  }

  /** The fast path: when more than f nodes have eligible requests, the node prepares for the least view so found. */
  lemma FastPicks(env: Env, s: Node, order: seq<(nat, nat)>) returns (k: int)
    requires Enumerates(s.viewChanges, order) && FastViewChange(env, s, order) != s
    ensures First(s, order, k) && FastViewChange(env, s, order).toView == order[k].0 - 1
    ensures forall l :: First(s, order, l) ==> order[k].0 <= order[l].0
    ensures |ScanAll(s, order).views| > env.MaxFaulty() && Highest(s, order, ScanAll(s, order).views)
  {
    ScanFinds(s, order);
    k :| First(s, order, k) && order[k].0 == ScanAll(s, order).minView.value;
  }

  /** The minimum depends on the order: a node that asked for views 5 and 7 stands for whichever is met first. */
  lemma ScanDependsOnOrder(s: Node, m5: Msg, m7: Msg)
    requires s.toView < 5 && s.viewChanges == map[5 := map[1 := m5], 7 := map[1 := m7]]
    requires m5.height >= s.highest && m7.height >= s.highest
    ensures Enumerates(s.viewChanges, [(5, 1), (7, 1)]) && Enumerates(s.viewChanges, [(7, 1), (5, 1)])
    ensures ScanAll(s, [(5, 1), (7, 1)]).minView == Some(5) && ScanAll(s, [(7, 1), (5, 1)]).minView == Some(7)
  {
    ScanTwo(s, (5, 1), (7, 1));
    ScanTwo(s, (7, 1), (5, 1));
  }

  lemma ScanTwo(s: Node, a: (nat, nat), b: (nat, nat))
    requires a.0 in s.viewChanges && a.1 in s.viewChanges[a.0] && b.0 in s.viewChanges && b.1 in s.viewChanges[b.0]
    ensures ScanAll(s, [a, b]) == ScanOne(s, ScanOne(s, Scan(map[], None, None), a.0, a.1), b.0, b.1)
  {
    assert [a, b][..1] == [a] && [a][..0] == [];
    assert ScanAll(s, []) == Scan(map[], None, None);
    assert ScanAll(s, [a]) == ScanOne(s, ScanAll(s, []), a.0, a.1);
  }

  predicate SameViews(s: Node, s': Node) {
    s'.idx == s.idx && s'.view == s.view && s'.toView == s.toView && s'.viewChanges == s.viewChanges
    && s'.consensus == s.consensus && s'.highest == s.highest && s.out <= s'.out
  }

  /** The node holds a full quorum of both kinds of vote for its proposal. */
  predicate Counts(env: Env, s: Node, p: Msg) {
    && s.prepare == Some(p)
    && |VotesFor(s.signs, p.hash)| >= env.Quorum() && |VotesFor(s.commits, p.hash)| >= env.Quorum()
  }

  /** Whatever has been sealed on the way from `s` to `s'` has its quorums standing. */
  ghost predicate SealsCounted(env: Env, s: Node, s': Node) {
    forall p :: p in s'.sealed ==> p in s.sealed || Counts(env, s', p)
  }

  lemma CommitSameViews(env: Env, s: Node)
    ensures SameViews(s, CheckAndCommit(env, s)) && SealsCounted(env, s, CheckAndCommit(env, s))
  {
  }

  lemma AcceptSameViews(env: Env, s: Node, height: nat, view: nat, leader: nat, x: Hash)
    ensures SameViews(s, Accept(env, s, height, view, leader, x))
    ensures SealsCounted(env, s, Accept(env, s, height, view, leader, x))
  {
    var p := Msg(height, view, leader, x, Signature(s.idx, x), true);
    CommitSameViews(env, BroadcastSign(AddPrepare(s, p), p));
  }

  lemma PrepareSameViews(env: Env, s: Node, m: Msg, self: bool, valid: bool)
    ensures SameViews(s, HandlePrepare(env, s, m, self, valid))
    ensures SealsCounted(env, s, HandlePrepare(env, s, m, self, valid))
  {
    AcceptSameViews(env, s.(raw := Some(m)), m.height, m.view, m.idx, env.execute(m.hash));
  }

  lemma ShouldSealSameViews(env: Env, s: Node, valid: bool)
    ensures SameViews(s, ShouldSeal(env, s, valid)) && SealsCounted(env, s, ShouldSeal(env, s, valid))
  {
    if ReProposes(env, s) {
      var m := Own(s.idx, s.committed.value.height, s.view, s.committed.value.hash);
      PrepareSameViews(env, s.(out := s.out + [PreparePkt(m)]), m, true, valid);
    }
  }

  lemma SignSameViews(env: Env, s: Node, m: Msg)
    ensures SameViews(s, HandleSign(env, s, m)) && SealsCounted(env, s, HandleSign(env, s, m))
  {
    CommitSameViews(env, s.(signs := AddVote(s.signs, m)));
  }

  lemma HandleCommitSameViews(env: Env, s: Node, m: Msg)
    ensures SameViews(s, HandleCommit(env, s, m)) && SealsCounted(env, s, HandleCommit(env, s, m))
  {
  }

  lemma FutureSameViews(env: Env, s: Node, valid: bool)
    ensures SameViews(s, HandleFuture(env, s, valid)) && SealsCounted(env, s, HandleFuture(env, s, valid))
  {
    if s.future.Some? { PrepareSameViews(env, s, s.future.value, false, valid); }
  }

  lemma ProposeSameViews(env: Env, s: Node, hash: Hash)
    ensures SameViews(s, Propose(env, s, hash)) && SealsCounted(env, s, Propose(env, s, hash))
  {
    var m := Own(s.idx, s.consensus, s.view, hash);
    AcceptSameViews(env, s.(out := s.out + [PreparePkt(m)], raw := Some(m)), s.consensus, s.view, s.idx,
        env.execute(hash));
  }

  lemma ChangeViewOrder(env: Env, s: Node)
    requires ViewOrder(s)
    ensures ViewOrder(CheckAndChangeView(env, s))
    ensures s.view <= CheckAndChangeView(env, s).view && CheckAndChangeView(env, s).consensus == s.consensus
  {
  }

  lemma TimeoutOrder(env: Env, s: Node)
    requires ViewOrder(s)
    ensures ViewOrder(Timeout(env, s))
    ensures s.view <= Timeout(env, s).view && Timeout(env, s).consensus == s.consensus
  {
    var s1 := BroadcastViewChange(BeforeTimeout(s));
    assert ViewOrder(s1);
    ChangeViewOrder(env, s1);
  }

  lemma FastOrder(env: Env, s: Node, order: seq<(nat, nat)>)
    requires ViewOrder(s) && Listed(s.viewChanges, order)
    ensures ViewOrder(FastViewChange(env, s, order))
    ensures FastViewChange(env, s, order).view == s.view && FastViewChange(env, s, order).consensus == s.consensus
    ensures s.toView <= FastViewChange(env, s, order).toView
  {
    FastChangesToView(env, s, order);
    ScanFinds(s, order);
  }

  lemma ViewChangeOrder(env: Env, s: Node, m: Msg, known: bool, order: seq<(nat, nat)>)
    requires ViewOrder(s) && Listed(StoreRequest(s, m).viewChanges, order)
    ensures ViewOrder(HandleViewChange(env, s, m, known, order))
    ensures s.view <= HandleViewChange(env, s, m, known, order).view
    ensures HandleViewChange(env, s, m, known, order).consensus == s.consensus
  {
    var s1 := if m.view + 1 < s.toView then BroadcastViewChange(s) else s;
    if !Seen(s, m) && m.idx != s.idx && !Rejected(env, s1, m, known) {
      var s2 := StoreRequest(s1, m);
      StoreKeepsViewOrder(s1, m);
      ChangeViewOrder(env, s2);
      FastOrder(env, s2, order);
    }
  }

  lemma ReportOrder(s: Node, number: nat, hash: Hash)
    requires ViewOrder(s)
    ensures ViewOrder(Report(s, number, hash))
    ensures Before(s.consensus, s.view, Report(s, number, hash).consensus, Report(s, number, hash).view)
  {
    var s' := Report(s, number, hash);
    assert PartOf(s'.viewChanges, s.viewChanges);
  }

  /** Requests for a view, timeouts and block reports are the only events that touch views. */
  lemma OtherEventsSameViews(env: Env, s: Node, e: Event)
    requires Enabled(env, s, e) && !e.RecvViewChange? && !e.ViewTimeout? && !e.BlockReported?
    ensures SameViews(s, Apply(env, s, e)) && SealsCounted(env, s, Apply(env, s, e))
  {
    match e
    case RecvPrepare(m, valid) => PrepareSameViews(env, s, m, false, valid);
    case RecvSign(m) => SignSameViews(env, s, m);
    case RecvCommit(m) => HandleCommitSameViews(env, s, m);
    case FutureBlock(valid) => FutureSameViews(env, s, valid);
    case SealCheck(valid) => ShouldSealSameViews(env, s, valid);
    case Seal(hash) => ProposeSameViews(env, s, hash);
    case Garbage =>
  }

  /** Every event moves (height, view) forward or leaves it, and keeps the stored requests above the view. */
  lemma ApplyKeepsViewOrder(env: Env, s: Node, e: Event)
    requires ViewOrder(s) && Enabled(env, s, e)
    ensures ViewOrder(Apply(env, s, e))
    ensures Before(s.consensus, s.view, Apply(env, s, e).consensus, Apply(env, s, e).view)
  {
    if e.RecvViewChange? {
      ViewChangeOrder(env, s, e.m, e.known, e.order);
    } else if e.ViewTimeout? {
      TimeoutOrder(env, s);
    } else if e.BlockReported? {
      ReportOrder(s, e.number, e.hash);
    } else {
      OtherEventsSameViews(env, s, e);
    }
  }

  lemma ReportOut(s: Node, number: nat, hash: Hash)
    ensures Report(s, number, hash).idx == s.idx && Report(s, number, hash).out == s.out
    ensures Report(s, number, hash).sealed == s.sealed
  {
  }

  lemma TimeoutOut(env: Env, s: Node)
    ensures Timeout(env, s).idx == s.idx && s.out <= Timeout(env, s).out && Timeout(env, s).sealed == s.sealed
  {
  }

  lemma ViewChangeOut(env: Env, s: Node, m: Msg, known: bool, order: seq<(nat, nat)>)
    requires Listed(StoreRequest(s, m).viewChanges, order)
    ensures HandleViewChange(env, s, m, known, order).idx == s.idx
    ensures s.out <= HandleViewChange(env, s, m, known, order).out
    ensures HandleViewChange(env, s, m, known, order).sealed == s.sealed
  {
    var s1 := if m.view + 1 < s.toView then BroadcastViewChange(s) else s;
    FastChangesToView(env, StoreRequest(s1, m), order);
  }

  lemma ApplyOutGrows(env: Env, s: Node, e: Event)
    requires Enabled(env, s, e)
    ensures Apply(env, s, e).idx == s.idx && s.out <= Apply(env, s, e).out && SealsCounted(env, s, Apply(env, s, e))
  {
    if e.RecvViewChange? {
      ViewChangeOut(env, s, e.m, e.known, e.order);
    } else if e.ViewTimeout? {
      TimeoutOut(env, s);
    } else if e.BlockReported? {
      ReportOut(s, e.number, e.hash);
    } else {
      OtherEventsSameViews(env, s, e);
    }
  }

  // ----- Who stands behind a view entry -----

  /** The requests that are counted when `e` makes the node enter the view it wants. */
  function CountedRequests(s: Node, e: Event): map<nat, Msg> {
    if e.RecvViewChange? then RequestsFor(StoreRequest(s, e.m).viewChanges, s.toView)
    else RequestsFor(BeforeTimeout(s).viewChanges, s.toView + 1)
  }

  /** Quorum-1 stored requests for view `v`, one each of other nodes, all verifying under their senders' keys. */
  ghost predicate Backed(su: Setup, sys: System, s: Node, e: Event, v: nat)
    requires |sys| == su.env.n
  {
    var reqs := CountedRequests(s, e);
    && |reqs| >= su.env.Quorum() - 1
    && s.idx !in reqs
    && forall k :: k in reqs ==> reqs[k].view == v && RequestSourced(su, sys, reqs[k], k)
  }

  /** The requests of correct nodes that are counted were sent as requests. */
  ghost predicate RequestsCast(su: Setup, sys: System, s: Node, e: Event)
    requires |sys| == su.env.n
  {
    var reqs := CountedRequests(s, e);
    forall k :: k in reqs && su.Correct(k) ==> ViewChangePkt(reqs[k]) in sys[k].out
  }

  lemma StoredBack(su: Setup, sys: System, s: Node, e: Event, s1: Node, v: nat)
    requires |sys| == su.env.n && ViewOrder(s1) && RequestsSourced(su, sys, s1.viewChanges) && s1.idx == s.idx
    requires CountedRequests(s, e) == RequestsFor(s1.viewChanges, v)
    requires |CountedRequests(s, e)| >= su.env.Quorum() - 1
    ensures Backed(su, sys, s, e, v) && (su.bound ==> RequestsCast(su, sys, s, e))
  {
    var reqs := CountedRequests(s, e);
    forall k | k in reqs ensures RequestSourced(su, sys, reqs[k], k) {
      assert RequestSourced(su, sys, s1.viewChanges[v][k], k);
    }
  }

  /** Entering another view of the same height takes requests for that view from quorum-1 other nodes. */
  lemma ViewEntryBacked(su: Setup, sys: System, s: Node, e: Event)
    requires |sys| == su.env.n && ViewOrder(s) && Accounted(su, sys, s)
    requires Enabled(su.env, s, e) && Allowed(su, sys, s, e)
    requires Apply(su.env, s, e).consensus == s.consensus && Apply(su.env, s, e).view != s.view
    ensures e.RecvViewChange? || e.ViewTimeout?
    ensures Backed(su, sys, s, e, Apply(su.env, s, e).view) && (su.bound ==> RequestsCast(su, sys, s, e))
  {
    if !e.RecvViewChange? && !e.ViewTimeout? && !e.BlockReported? {
      OtherEventsSameViews(su.env, s, e);
    }
    if e.ViewTimeout? {
      var s1 := BroadcastViewChange(BeforeTimeout(s));
      TimeoutOrderBefore(s);
      PartAccounted(su, sys, s, s1);
      StoredBack(su, sys, s, e, s1, s1.toView);
    } else {
      RequestEntryBacked(su, sys, s, e);
    }
  }

  lemma TimeoutOrderBefore(s: Node)
    requires ViewOrder(s)
    ensures ViewOrder(BroadcastViewChange(BeforeTimeout(s)))
  {
  }

  lemma RequestEntryBacked(su: Setup, sys: System, s: Node, e: Event)
    requires |sys| == su.env.n && ViewOrder(s) && Accounted(su, sys, s) && e.RecvViewChange?
    requires Listed(StoreRequest(s, e.m).viewChanges, e.order) && Authentic(su, sys, ViewChangePkt(e.m))
    requires HandleViewChange(su.env, s, e.m, e.known, e.order).view != s.view
    ensures Backed(su, sys, s, e, HandleViewChange(su.env, s, e.m, e.known, e.order).view)
    ensures su.bound ==> RequestsCast(su, sys, s, e)
  {
    var m := e.m;
    var s1 := if m.view + 1 < s.toView then BroadcastViewChange(s) else s;
    var s2 := StoreRequest(s1, m);
    FastChangesToView(su.env, s2, e.order);
    assert m.idx != s.idx && !Rejected(su.env, s1, m, e.known) && m.view == s2.toView;
    StoreAccounted(su, sys, s, m);
    assert s2.viewChanges == StoreRequest(s, m).viewChanges;
    StoreKeepsViewOrder(s1, m);
    StoredBack(su, sys, s, e, s2, s2.toView);
  }

  lemma StoreKeepsViewOrder(s: Node, m: Msg)
    requires ViewOrder(s) && m.idx != s.idx && m.view > s.view
    ensures ViewOrder(StoreRequest(s, m))
  {
  }

  // ----- Requests and the head -----

  /** The height in progress is at most one above the head, and no stored request was made below the head. */
  predicate HeadOrder(s: Node) {
    && s.consensus <= s.highest + 1
    && forall v, i :: v in s.viewChanges && i in s.viewChanges[v] ==> s.viewChanges[v][i].height >= s.highest
  }

  /** Every event keeps that, unless a block below the head is reported. */
  lemma ApplyKeepsHeadOrder(env: Env, s: Node, e: Event)
    requires HeadOrder(s) && Enabled(env, s, e)
    requires e.BlockReported? ==> e.number >= s.highest
    ensures HeadOrder(Apply(env, s, e))
  {
    if e.RecvViewChange? {
      RequestKeepsHeadOrder(env, s, e.m, e.known, e.order);
    } else if e.ViewTimeout? {
      PartKeepsHeadOrder(s, Timeout(env, s));
    } else if e.BlockReported? {
      ReportKeepsHeadOrder(s, e.number, e.hash);
    } else {
      OtherEventsSameViews(env, s, e);
    }
  }

  lemma PartKeepsHeadOrder(s: Node, s': Node)
    requires HeadOrder(s) && PartOf(s'.viewChanges, s.viewChanges)
    requires s'.consensus == s.consensus && s'.highest == s.highest
    ensures HeadOrder(s')
  {
  }

  lemma RequestKeepsHeadOrder(env: Env, s: Node, m: Msg, known: bool, order: seq<(nat, nat)>)
    requires HeadOrder(s) && Listed(StoreRequest(s, m).viewChanges, order)
    ensures HeadOrder(HandleViewChange(env, s, m, known, order))
  {
    var s1 := if m.view + 1 < s.toView then BroadcastViewChange(s) else s;
    if !Rejected(env, s1, m, known) {
      var s2 := StoreRequest(s1, m);
      assert HeadOrder(s2);
      PartKeepsHeadOrder(s2, CheckAndChangeView(env, s2));
      FastChangesToView(env, s2, order);
    }
  }

  lemma ReportKeepsHeadOrder(s: Node, number: nat, hash: Hash)
    requires HeadOrder(s) && number >= s.highest
    ensures HeadOrder(Report(s, number, hash))
  {
  }

  /** What is counted at a view entry was then made no lower than the head. */
  lemma CountedAboveHead(env: Env, s: Node, e: Event)
    requires HeadOrder(s) && (e.RecvViewChange? || e.ViewTimeout?) && Enabled(env, s, e)
    requires Apply(env, s, e).view != s.view
    ensures forall k :: k in CountedRequests(s, e) ==> CountedRequests(s, e)[k].height >= s.highest
  {
    if e.RecvViewChange? {
      var s1 := if e.m.view + 1 < s.toView then BroadcastViewChange(s) else s;
      FastChangesToView(env, StoreRequest(s1, e.m), e.order);
    }
  }
}
