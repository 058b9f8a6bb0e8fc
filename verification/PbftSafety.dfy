/**
 Agreement of the consensus nodes over every run.
 */
module PbftSafety {
  import opened Wrappers
  import opened Pbft
  import opened PbftSystem
  import opened PbftVotes
  import opened PbftViews

  // ----- Runs -----

  ghost predicate Inv(su: Setup, sys: System) {
    && |sys| == su.env.n
    && forall i: nat :: su.Correct(i) ==>
         sys[i].idx == i && Core(su, sys[i]) && ViewOrder(sys[i]) && Accounted(su, sys, sys[i])
  }

  lemma InitInv(su: Setup, sys: System)
    requires su.Valid() && Init(su, sys)
    ensures Inv(su, sys)
  {
  }

  lemma StepInv(su: Setup, sys: System, sys': System, i: nat, e: Event)
    requires su.Valid() && Inv(su, sys) && Step(su, sys, sys', i, e)
    ensures Inv(su, sys') && Grows(sys, sys')
  {
    var s, s' := sys[i], Apply(su.env, sys[i], e);
    ApplyOutGrows(su.env, s, e);
    ApplyKeepsCore(su, sys, s, e);
    ApplyKeepsViewOrder(su.env, s, e);
    assert Grows(sys, sys');
    AllowedGrows(su, sys, sys', s, e);
    AccountedGrows(su, sys, sys', s);
    ApplyAccounted(su, sys', s, e);
    forall j: nat | su.Correct(j) && j != i ensures Accounted(su, sys', sys'[j]) {
      AccountedGrows(su, sys, sys', sys[j]);
    }
  }

  lemma AllowedGrows(su: Setup, sys: System, sys': System, s: Node, e: Event)
    requires |sys| == su.env.n && Grows(sys, sys') && Allowed(su, sys, s, e)
    ensures Allowed(su, sys', s, e)
  {
    match e
    case RecvSign(m) => AuthenticGrows(su, sys, sys', SignPkt(m));
    case RecvCommit(m) => AuthenticGrows(su, sys, sys', CommitPkt(m));
    case RecvViewChange(m, _, _) => AuthenticGrows(su, sys, sys', ViewChangePkt(m));
    case _ =>
  }

  lemma AuthenticGrows(su: Setup, sys: System, sys': System, p: Packet)
    requires |sys| == su.env.n && Grows(sys, sys') && Authentic(su, sys, p)
    ensures Authentic(su, sys', p)
  {
    if CheckSign(su.env, p.m) && su.Correct(p.m.idx) { VouchedGrows(su, sys[p.m.idx], sys'[p.m.idx], p); }
  }

  lemma {:induction false} RunInv(su: Setup, run: seq<System>, t: nat)
    requires su.Valid() && Run(su, run) && t < |run|
    ensures Inv(su, run[t])
  {
    if t == 0 {
      InitInv(su, run[0]);
    } else {
      RunInv(su, run, t - 1);
      assert Next(su, run[t - 1], run[t]);
      var i, e :| Step(su, run[t - 1], run[t], i, e);
      StepInv(su, run[t - 1], run[t], i, e);
    }
  }

  // ----- Agreement -----

  ghost function UpTo(n: nat): (all: set<nat>)
    ensures |all| == n && forall i: nat :: i in all <==> i < n
  {
    if n == 0 then {} else UpTo(n - 1) + {n - 1}
  }

  /** Two quorums share a correct node. */
  lemma CorrectInBoth(su: Setup, a: set<nat>, b: set<nat>) returns (k: nat)
    requires su.Valid()
    requires forall i :: i in a + b ==> i < su.env.n
    requires |a| >= su.env.Quorum() && |b| >= su.env.Quorum()
    ensures k in a && k in b && su.Correct(k)
  {
    SubsetSize(a + b, UpTo(su.env.n));
    assert |a + b| == |a| + |b| - |a * b|;
    if a * b <= su.faulty {
      SubsetSize(a * b, su.faulty);
      assert false;
    }
    k :| k in a * b && k !in su.faulty;
  }

  /** The correct nodes' votes that `s` counts for `p` were cast as what they are counted for, in the view of `p`. */
  ghost predicate CastAsCounted(su: Setup, sys: System, s: Node, p: Msg)
    requires |sys| == su.env.n
  {
    && (forall k :: k in CountedCommits(s, p.hash) && su.Correct(k) ==> VotedCommit(sys[k], p.view, p.hash))
    && (forall k :: k in CountedSigns(s, p.hash) && su.Correct(k) ==> VotedSign(sys[k], p.view, p.hash))
  }

  /** No full quorum that a correct node holds counts a correct node's vote for something it was not cast for. */
  ghost predicate QuorumsCast(su: Setup, sys: System) {
    |sys| == su.env.n ==>
      forall i: nat :: su.Correct(i) && sys[i].prepare.Some? && Counts(su.env, sys[i], sys[i].prepare.value) ==>
        CastAsCounted(su, sys, sys[i], sys[i].prepare.value)
  }

  /** What node `i` has sealed in this step has its quorums standing. */
  ghost predicate SealStep(env: Env, sys: System, sys': System, i: nat) {
    |sys| == |sys'| == env.n && i < env.n
    && forall p :: p in sys'[i].sealed ==> p in sys[i].sealed || Counts(env, sys'[i], p)
  }

  /** A sealed block had its quorums standing at some time. */
  lemma SealedWhen(su: Setup, run: seq<System>, t: nat, i: nat, p: Msg) returns (u: nat)
    requires su.Valid() && Run(su, run) && t < |run| && su.Correct(i) && |run[t]| == su.env.n && p in run[t][i].sealed
    ensures u <= t && |run[u]| == su.env.n && Counts(su.env, run[u][i], p)
  {
    forall k, l | 0 <= k < l < |run| && l == k + 1 ensures SealStep(su.env, run[k], run[l], i) {
      assert Next(su, run[k], run[l]);
      SealedNow(su, run[k], run[l], i);
    }
    NothingSealed(su, run[0], i);
    u := SealedAlong(su.env, run, t, i, p);
  }

  lemma {:induction false} SealedAlong(env: Env, run: seq<System>, t: nat, i: nat, p: Msg) returns (u: nat)
    requires t < |run| && forall k, l :: 0 <= k < l < |run| && l == k + 1 ==> SealStep(env, run[k], run[l], i)
    requires i < env.n == |run[0]| && run[0][i].sealed == [] && i < |run[t]| && p in run[t][i].sealed
    ensures u <= t && |run[u]| == env.n && Counts(env, run[u][i], p)
  {
    u := t;
    if t == 0 {
      assert false;
    } else {
      assert SealStep(env, run[t - 1], run[t], i);
      if p in run[t - 1][i].sealed {
        u := SealedAlong(env, run, t - 1, i, p);
      }
    }
  }

  lemma NothingSealed(su: Setup, sys: System, i: nat)
    requires Init(su, sys) && i < su.env.n
    ensures sys[i].sealed == []
  {
  }

  lemma SealedNow(su: Setup, sys: System, sys': System, i: nat)
    requires Next(su, sys, sys') && su.Correct(i)
    ensures SealStep(su.env, sys, sys', i)
  {
    var j: nat, e :| Step(su, sys, sys', j, e);
    ApplyOutGrows(su.env, sys[j], e);
  }

  lemma OutGrows(su: Setup, run: seq<System>, t: nat, u: nat)
    requires su.Valid() && Run(su, run) && t <= u < |run|
    ensures Grows(run[t], run[u])
  {
    forall k, l | 0 <= k < l < |run| && l == k + 1 ensures Grows(run[k], run[l]) {
      assert Next(su, run[k], run[l]);
      NextGrows(su, run[k], run[l]);
    }
    GrowsAlong(run, t, u);
  }

  lemma {:induction false} GrowsAlong(run: seq<System>, t: nat, u: nat)
    requires t <= u < |run|
    requires forall k, l :: 0 <= k < l < |run| && l == k + 1 ==> Grows(run[k], run[l])
    ensures Grows(run[t], run[u])
    decreases u
  {
    if t < u {
      GrowsAlong(run, t, u - 1);
      GrowsOn(run[t], run[u - 1], run[u]);
    }
  }

  lemma NextGrows(su: Setup, sys: System, sys': System)
    requires Next(su, sys, sys')
    ensures Grows(sys, sys')
  {
    var j: nat, e :| Step(su, sys, sys', j, e);
    ApplyOutGrows(su.env, sys[j], e);
  }

  lemma GrowsOn(a: System, b: System, c: System)
    requires Grows(a, b) && Grows(b, c)
    ensures Grows(a, c)
  {
  }

  /**
   One correct voter that cast its commit vote for `p` and its sign vote
   for `q`, no earlier, makes them one block.
   */
  lemma VoterBinds(su: Setup, s: Node, p: Msg, q: Msg)
    requires su.Valid() && Core(su, s) && p.height == q.height && p.view <= q.view
    requires p.hash == su.Value(p.height, p.view) && q.hash == su.Value(q.height, q.view)
    requires VotedCommit(s, p.view, p.hash) && VotedSign(s, q.view, q.hash)
    ensures p.hash == q.hash
  {
    var c :| CommitPkt(c) in s.out && c.view == p.view && c.hash == p.hash;
    var m :| SignPkt(m) in s.out && m.view == q.view && m.hash == q.hash;
    assert su.number(su.Value(c.height, c.view)) == c.height && su.number(su.Value(p.height, p.view)) == p.height;
    assert su.number(su.Value(m.height, m.view)) == m.height && su.number(su.Value(q.height, q.view)) == q.height;
    assert Faithful(su, s);
  }

  /**
   The code as it is: if two correct nodes have sealed different blocks at one height, then when they counted
   (at `u` and `w`) some correct node was counted as committing the earlier block and as signing the later
   one, and every such node was counted for a vote it did not cast.
   */
  lemma DisagreementNeedsUncast(su: Setup, run: seq<System>, t: nat, i: nat, j: nat, p: Msg, q: Msg)
    returns (u: nat, w: nat, k: nat)
    requires su.Valid() && Run(su, run) && t < |run| && su.Correct(i) && su.Correct(j) && |run[t]| == su.env.n
    requires p in run[t][i].sealed && q in run[t][j].sealed
    requires p.height == q.height && p.view <= q.view && p.hash != q.hash
    ensures u <= t && w <= t && |run[u]| == |run[w]| == su.env.n
    ensures Counts(su.env, run[u][i], p) && Counts(su.env, run[w][j], q)
    ensures su.Correct(k) && k in CountedCommits(run[u][i], p.hash) && k in CountedSigns(run[w][j], q.hash)
    ensures forall l: nat {:trigger su.Correct(l)} ::
              su.Correct(l) && l in CountedCommits(run[u][i], p.hash) && l in CountedSigns(run[w][j], q.hash) ==>
                !VotedCommit(run[t][l], p.view, p.hash) || !VotedSign(run[t][l], q.view, q.hash)
  {
    u := QuorumsAt(su, run, t, i, p);
    w := QuorumsAt(su, run, t, j, q);
    k := CorrectInBoth(su, CountedCommits(run[u][i], p.hash), CountedSigns(run[w][j], q.hash));
    RunInv(su, run, t);
    forall l: nat | su.Correct(l) && VotedCommit(run[t][l], p.view, p.hash) && VotedSign(run[t][l], q.view, q.hash)
      ensures false
    {
      VoterBinds(su, run[t][l], p, q);
    }
  }

  /** When a block was sealed, full quorums of different nodes were counted for it. */
  lemma QuorumsAt(su: Setup, run: seq<System>, t: nat, i: nat, p: Msg) returns (u: nat)
    requires su.Valid() && Run(su, run) && t < |run| && su.Correct(i) && |run[t]| == su.env.n && p in run[t][i].sealed
    ensures u <= t && |run[u]| == su.env.n && Counts(su.env, run[u][i], p) && p.hash == su.Value(p.height, p.view)
    ensures |CountedCommits(run[u][i], p.hash)| >= su.env.Quorum()
    ensures |CountedSigns(run[u][i], p.hash)| >= su.env.Quorum()
    ensures forall k :: k in CountedCommits(run[u][i], p.hash) ==> k < su.env.n
    ensures forall k :: k in CountedSigns(run[u][i], p.hash) ==> k < su.env.n
  {
    u := SealedWhen(su, run, t, i, p);
    RunInv(su, run, u);
    CommitQuorumSeen(su, run[u], run[u][i], p);
    SignQuorumSeen(su, run[u], run[u][i], p);
  }

  lemma VotesGrow(s: Node, s': Node, view: nat, hash: Hash)
    requires forall p :: p in s.out ==> p in s'.out
    ensures VotedCommit(s, view, hash) ==> VotedCommit(s', view, hash)
    ensures VotedSign(s, view, hash) ==> VotedSign(s', view, hash)
  {
  }

  /**
   No two correct nodes ever seal different blocks at one height, whatever views they seal in, as long as full
   quorums count votes for what they were cast for.
   */
  lemma Agreement(su: Setup, run: seq<System>, t: nat, i: nat, j: nat, p: Msg, q: Msg)
    requires su.Valid() && Run(su, run) && t < |run| && forall u :: 0 <= u <= t ==> QuorumsCast(su, run[u])
    requires su.Correct(i) && su.Correct(j)
    requires |run[t]| == su.env.n && p in run[t][i].sealed && q in run[t][j].sealed && p.height == q.height
    ensures p.hash == q.hash
    decreases p.view > q.view
  {
    if p.hash != q.hash {
      if p.view > q.view {
        Agreement(su, run, t, j, i, q, p);
      } else {
        var u, w, k := DisagreementNeedsUncast(su, run, t, i, j, p, q);
        assert QuorumsCast(su, run[u]) && QuorumsCast(su, run[w]);
        OutGrows(su, run, u, t);
        OutGrows(su, run, w, t);
        VotesGrow(run[u][k], run[t][k], p.view, p.hash);
        VotesGrow(run[w][k], run[t][k], q.view, q.hash);
      }
    }
  }

  /** Signatures that bind a request's kind and all its fields are enough for that. */
  lemma BoundQuorumsCast(su: Setup, run: seq<System>, t: nat)
    requires su.Valid() && su.bound && Run(su, run) && t < |run|
    ensures QuorumsCast(su, run[t])
  {
    RunInv(su, run, t);
    forall i: nat | su.Correct(i) && run[t][i].prepare.Some?
      ensures CastAsCounted(su, run[t], run[t][i], run[t][i].prepare.value)
    {
      CommitQuorumSeen(su, run[t], run[t][i], run[t][i].prepare.value);
      SignQuorumSeen(su, run[t], run[t][i], run[t][i].prepare.value);
    }
  }

  lemma BoundAgreement(su: Setup, run: seq<System>, t: nat, i: nat, j: nat, p: Msg, q: Msg)
    requires su.Valid() && su.bound && Run(su, run) && t < |run| && su.Correct(i) && su.Correct(j)
    requires |run[t]| == su.env.n && p in run[t][i].sealed && q in run[t][j].sealed && p.height == q.height
    ensures p.hash == q.hash
  {
    forall u | 0 <= u <= t ensures QuorumsCast(su, run[u]) { BoundQuorumsCast(su, run, u); }
    Agreement(su, run, t, i, j, p, q);
  }

  lemma RunStepAdvances(su: Setup, run: seq<System>, t: nat, i: nat)
    requires su.Valid() && Run(su, run) && t + 1 < |run| && su.Correct(i)
    ensures |run[t]| == |run[t + 1]| == su.env.n
    ensures Before(run[t][i].consensus, run[t][i].view, run[t + 1][i].consensus, run[t + 1][i].view)
  {
    RunInv(su, run, t);
    assert Next(su, run[t], run[t + 1]);
    var j, e :| Step(su, run[t], run[t + 1], j, e);
    if i == j { ApplyKeepsViewOrder(su.env, run[t][i], e); }
  }

  /** The height and view of node `i` in state `sys`, or nothing before the nodes exist. */
  function Place(sys: System, i: nat): (nat, nat) {
    if i < |sys| then (sys[i].consensus, sys[i].view) else (0, 0)
  }

  lemma {:induction false} PlacesAdvance(places: seq<(nat, nat)>, t: nat, u: nat)
    requires t <= u < |places|
    requires forall k, l :: 0 <= k < l < |places| && l == k + 1 ==>
               Before(places[k].0, places[k].1, places[l].0, places[l].1)
    ensures Before(places[t].0, places[t].1, places[u].0, places[u].1)
    decreases u
  {
    if t < u {
      PlacesAdvance(places, t, u - 1);
    }
  }

  /** Over every run a correct node's (height, view) only moves forward. */
  lemma ViewsAdvance(su: Setup, run: seq<System>, t: nat, u: nat, i: nat)
    requires su.Valid() && Run(su, run) && t <= u < |run| && su.Correct(i)
    ensures Before(Place(run[t], i).0, Place(run[t], i).1, Place(run[u], i).0, Place(run[u], i).1)
  {
    var places := seq(|run|, k requires 0 <= k < |run| => Place(run[k], i));
    forall k, l | 0 <= k < l < |places| && l == k + 1
      ensures Before(places[k].0, places[k].1, places[l].0, places[l].1)
    {
      RunStepAdvances(su, run, k, i);
    }
    PlacesAdvance(places, t, u);
  }

  /**
   Why the runs above carry one proposal per height and view: a second request for a view, rejected
   for coming from a node that does not lead, still fills the raw slot. When the quorum for the accepted
   block `p` completes, the lock names the rejected block while the commit vote names `p`.
   */
  lemma LockFollowsRawSlot(env: Env, s: Node, p: Msg, rejected: Msg, valid: bool, vote: Msg)
    requires s.prepare == Some(p) && p.height == s.consensus && p.view == s.view
    requires rejected.height == s.consensus && rejected.view == s.view && rejected.idx != s.idx
    requires !Duplicate(s, rejected) && !Leads(env, s, rejected.idx)
    requires CheckSign(env, vote) && vote.hash == p.hash && vote.view == p.view && vote.idx != s.idx
    requires !Known(s.signs, vote) && |AddVote(s.signs, vote)[p.hash]| == env.Quorum()
    ensures var s' := HandleSign(env, HandlePrepare(env, s, rejected, false, valid), vote);
            s'.committed == Some(rejected) && CommitPkt(Own(s.idx, p.height, p.view, p.hash)) in s'.out
  {
    var s1 := HandlePrepare(env, s, rejected, false, valid);
    assert s1 == s.(raw := Some(rejected));
    var s2 := s1.(signs := AddVote(s1.signs, vote));
    var s3 := BroadcastCommit(s2.(committed := s2.raw), p);
    assert s3.out[|s3.out| - 1] == CommitPkt(Own(s.idx, p.height, p.view, p.hash));
  }

  /** In every reachable state the wanted view is not behind, and stored requests ask for later views. */
  lemma ViewsOrdered(su: Setup, run: seq<System>, t: nat, i: nat)
    requires su.Valid() && Run(su, run) && t < |run| && su.Correct(i)
    ensures |run[t]| == su.env.n && ViewOrder(run[t][i])
  {
    RunInv(su, run, t);
  }

  // ----- View entries -----

  /** At step `t` node `i` enters another view of the height it is at. */
  predicate Enters(run: seq<System>, t: nat, i: nat) {
    && t + 1 < |run| && i < |run[t]| && i < |run[t + 1]|
    && run[t][i].consensus == run[t + 1][i].consensus && run[t][i].view != run[t + 1][i].view
  }

  /** A view entry rests on verifying requests for that view which quorum-1 other nodes signed. */
  lemma EveryViewEntryBacked(su: Setup, run: seq<System>, t: nat, i: nat) returns (e: Event)
    requires su.Valid() && Run(su, run) && su.Correct(i) && Enters(run, t, i)
    ensures Step(su, run[t], run[t + 1], i, e)
    ensures Backed(su, run[t], run[t][i], e, run[t + 1][i].view) && run[t][i].idx == i
    ensures su.bound ==> RequestsCast(su, run[t], run[t][i], e)
    ensures HeadsKept(run, t, i) ==>
              forall k :: k in CountedRequests(run[t][i], e) ==>
                CountedRequests(run[t][i], e)[k].height >= run[t][i].highest
  {
    RunInv(su, run, t);
    assert Next(su, run[t], run[t + 1]);
    var j, e' :| Step(su, run[t], run[t + 1], j, e');
    e := e';
    ViewEntryBacked(su, run[t], run[t][i], e);
    if HeadsKept(run, t, i) {
      HeadsOrdered(su, run, t, i);
      CountedAboveHead(su.env, run[t][i], e);
    }
  }

  function Head(sys: System, i: nat): nat { if i < |sys| then sys[i].highest else 0 }

  /** No block below the head of node `i` is reported to it up to `t`. */
  ghost predicate HeadsKept(run: seq<System>, t: nat, i: nat) {
    forall k, l :: 0 <= k < l < |run| && l <= t && l == k + 1 ==> Head(run[k], i) <= Head(run[l], i)
  }

  lemma {:induction false} HeadsOrdered(su: Setup, run: seq<System>, t: nat, i: nat)
    requires su.Valid() && Run(su, run) && t < |run| && su.Correct(i) && HeadsKept(run, t, i)
    ensures |run[t]| == su.env.n && HeadOrder(run[t][i])
  {
    if t > 0 {
      HeadsOrdered(su, run, t - 1, i);
      assert Next(su, run[t - 1], run[t]);
      var j: nat, e :| Step(su, run[t - 1], run[t], j, e);
      if i == j {
        assert Head(run[t - 1], i) <= Head(run[t], i);
        assert e.BlockReported? ==> run[t][i] == Report(run[t - 1][i], e.number, e.hash);
        ApplyKeepsHeadOrder(su.env, run[t - 1][i], e);
      }
    }
  }

  /** The node asked for view `v`, with a head no lower than `head`. */
  ghost predicate AskedFor(s: Node, v: nat, head: nat) {
    exists m :: ViewChangePkt(m) in s.out && m.view == v && m.height >= head
  }

  /**
   So at least that many less the faulty ones are correct nodes that
   asked for it, if counted requests were sent as such.
   */
  lemma CorrectNodesAsked(su: Setup, run: seq<System>, t: nat, i: nat, e: Event) returns (askers: set<nat>)
    requires su.Valid() && Run(su, run) && su.Correct(i) && Enters(run, t, i) && HeadsKept(run, t, i)
    requires Step(su, run[t], run[t + 1], i, e) && RequestsCast(su, run[t], run[t][i], e)
    ensures |askers| >= su.env.Quorum() - 1 - |su.faulty| && (su.env.n > 1 ==> askers != {}) && i !in askers
    ensures forall k :: k in askers ==> su.Correct(k) && AskedFor(run[t][k], run[t + 1][i].view, run[t][i].highest)
  {
    RunInv(su, run, t);
    ViewEntryBacked(su, run[t], run[t][i], e);
    HeadsOrdered(su, run, t, i);
    CountedAboveHead(su.env, run[t][i], e);
    var reqs := CountedRequests(run[t][i], e);
    askers := reqs.Keys - su.faulty;
    assert |reqs.Keys| == |reqs|;
    SubsetSize(reqs.Keys, askers + su.faulty);
    forall k | k in askers ensures su.Correct(k) && AskedFor(run[t][k], run[t + 1][i].view, run[t][i].highest) {
      assert RequestSourced(su, run[t], reqs[k], k);
      assert ViewChangePkt(reqs[k]) in run[t][k].out;
    }
  }
}
