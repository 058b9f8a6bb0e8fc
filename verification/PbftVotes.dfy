/**
 Where the votes and requests that a node holds come from, and that every event keeps them accounted for.
 */
module PbftVotes {
  import opened Wrappers
  import opened Pbft
  import opened PbftSystem

  // ----- Where cached votes and sealed blocks come from -----

  ghost predicate VotedCommit(s: Node, view: nat, hash: Hash) {
    exists m :: CommitPkt(m) in s.out && m.view == view && m.hash == hash
  }

  ghost predicate VotedSign(s: Node, view: nat, hash: Hash) {
    exists m :: SignPkt(m) in s.out && m.view == view && m.hash == hash
  }

  /** If the sender is correct, it vouches for this packet. */
  ghost predicate FromSender(su: Setup, sys: System, p: Packet)
    requires |sys| == su.env.n
  {
    su.Correct(p.m.idx) ==> Vouched(su, sys[p.m.idx], p)
  }

  ghost predicate SignsSourced(su: Setup, sys: System, cache: map<Hash, Votes>)
    requires |sys| == su.env.n
  {
    forall h, k :: h in cache && k in cache[h] ==> FromSender(su, sys, SignPkt(cache[h][k]))
  }

  ghost predicate CommitsSourced(su: Setup, sys: System, cache: map<Hash, Votes>)
    requires |sys| == su.env.n
  {
    forall h, k :: h in cache && k in cache[h] ==> FromSender(su, sys, CommitPkt(cache[h][k]))
  }

  ghost predicate RequestSourced(su: Setup, sys: System, m: Msg, i: nat)
    requires |sys| == su.env.n
  {
    m.idx == i && CheckSign(su.env, m) && FromSender(su, sys, ViewChangePkt(m))
  }

  ghost predicate RequestsSourced(su: Setup, sys: System, vcs: Requests)
    requires |sys| == su.env.n
  {
    forall v, i :: v in vcs && i in vcs[v] ==> RequestSourced(su, sys, vcs[v][i], i)
  }

  ghost predicate Sourced(su: Setup, sys: System, s: Node)
    requires |sys| == su.env.n
  {
    && SignsSourced(su, sys, s.signs)
    && CommitsSourced(su, sys, s.commits)
    && RequestsSourced(su, sys, s.viewChanges)
  }

  ghost predicate Accounted(su: Setup, sys: System, s: Node)
    requires |sys| == su.env.n
  {
    && Caches(su, s)
    && Sourced(su, sys, s)
    && (s.prepare.Some? ==> s.prepare.value.hash == su.Value(s.prepare.value.height, s.prepare.value.view))
  }

  ghost predicate Grows(sys: System, sys': System) {
    |sys| == |sys'| && forall k, p :: 0 <= k < |sys| && p in sys[k].out ==> p in sys'[k].out
  }

  lemma SubsetSize<T>(a: set<T>, b: set<T>)
    requires a <= b
    ensures |a| <= |b|
  {
    assert b == a + (b - a);
  }

  lemma SentIsVouched(su: Setup, s: Node, p: Packet)
    requires p in s.out
    ensures Vouched(su, s, p)
  {
  }

  lemma VouchedGrows(su: Setup, s: Node, s': Node, p: Packet)
    requires Vouched(su, s, p) && forall q :: q in s.out ==> q in s'.out
    ensures Vouched(su, s', p)
  {
    if !su.bound {
      var q :| q in s.out && q.m.hash == p.m.hash;
      var r :| r in s.out && r.m.height == p.m.height && r.m.view == p.m.view;
      assert q in s'.out && r in s'.out;
    }
  }

  lemma FromSenderGrows(su: Setup, sys: System, sys': System, p: Packet)
    requires |sys| == su.env.n && Grows(sys, sys') && FromSender(su, sys, p)
    ensures FromSender(su, sys', p)
  {
    if su.Correct(p.m.idx) { VouchedGrows(su, sys[p.m.idx], sys'[p.m.idx], p); }
  }

  lemma AccountedGrows(su: Setup, sys: System, sys': System, s: Node)
    requires |sys| == su.env.n && Grows(sys, sys') && Accounted(su, sys, s)
    ensures Accounted(su, sys', s)
  {
    forall v, i | v in s.viewChanges && i in s.viewChanges[v]
      ensures RequestSourced(su, sys', s.viewChanges[v][i], i)
    {
      assert RequestSourced(su, sys, s.viewChanges[v][i], i);
      FromSenderGrows(su, sys, sys', ViewChangePkt(s.viewChanges[v][i]));
    }
    forall h, k | h in s.signs && k in s.signs[h] ensures FromSender(su, sys', SignPkt(s.signs[h][k])) {
      FromSenderGrows(su, sys, sys', SignPkt(s.signs[h][k]));
    }
    forall h, k | h in s.commits && k in s.commits[h] ensures FromSender(su, sys', CommitPkt(s.commits[h][k])) {
      FromSenderGrows(su, sys, sys', CommitPkt(s.commits[h][k]));
    }
  }

  ghost predicate PartOf<A, B, C>(small: map<A, map<B, C>>, big: map<A, map<B, C>>) {
    forall h, k :: h in small && k in small[h] ==> h in big && k in big[h] && small[h][k] == big[h][k]
  }

  /** Forgetting votes, requests or the prepare slot leaves the rest accounted for. */
  lemma PartAccounted(su: Setup, sys: System, s: Node, s': Node)
    requires |sys| == su.env.n && Accounted(su, sys, s)
    requires s'.idx == s.idx
    requires s'.prepare == s.prepare || s'.prepare == None
    requires PartOf(s'.signs, s.signs) && PartOf(s'.commits, s.commits) && PartOf(s'.viewChanges, s.viewChanges)
    ensures Accounted(su, sys, s')
  {
    forall v, i | v in s'.viewChanges && i in s'.viewChanges[v]
      ensures RequestSourced(su, sys, s'.viewChanges[v][i], i)
    {
      assert RequestSourced(su, sys, s.viewChanges[v][i], i);
    }
    forall h, k | h in s'.signs && k in s'.signs[h]
      ensures FromSender(su, sys, SignPkt(s'.signs[h][k])) && Filed(su.env, s'.signs[h][k], h, k)
    {
      assert FromSender(su, sys, SignPkt(s.signs[h][k]));
    }
    forall h, k | h in s'.commits && k in s'.commits[h]
      ensures FromSender(su, sys, CommitPkt(s'.commits[h][k])) && Filed(su.env, s'.commits[h][k], h, k)
    {
      assert FromSender(su, sys, CommitPkt(s.commits[h][k]));
    }
  }

  /** Votes under one hash come from as many nodes as there are votes. */
  lemma {:induction false} DistinctVoters(env: Env, votes: Votes, hash: Hash)
    requires forall k :: k in votes ==> Filed(env, votes[k], hash, k)
    ensures |set k | k in votes :: k.key| == |votes|
    ensures forall k :: k in votes ==> votes[k].idx == k.key
  {
    var ids := set k | k in votes :: k.key;
    if votes == map[] {
      assert ids == {};
    } else {
      var k :| k in votes;
      assert Filed(env, votes[k], hash, k);
      var rest := votes - {k};
      assert rest.Keys == votes.Keys - {k};
      DistinctVoters(env, rest, hash);
      var ids' := set j | j in rest :: j.key;
      forall j | j in rest ensures j.key != k.key {
        assert Filed(env, votes[j], hash, j);
      }
      assert ids == ids' + {k.key};
    }
  }

  /** The nodes whose commit votes `s` counts for the block. */
  ghost function CountedCommits(s: Node, hash: Hash): set<nat> { set k | k in VotesFor(s.commits, hash) :: k.key }

  ghost function CountedSigns(s: Node, hash: Hash): set<nat> { set k | k in VotesFor(s.signs, hash) :: k.key }

  /**
   What a counted vote shows of a correct node without the hypothesis:
   it signed the hash, and it signed something in that view.
   */
  ghost predicate SignedApart(s: Node, p: Msg) {
    SentHash(s, p.hash) && exists q :: q in s.out && q.m.view == p.view
  }

  lemma CommitQuorumSeen(su: Setup, sys: System, s: Node, p: Msg)
    requires |sys| == su.env.n && Accounted(su, sys, s) && s.prepare == Some(p)
    ensures |CountedCommits(s, p.hash)| == |VotesFor(s.commits, p.hash)|
    ensures forall k :: k in CountedCommits(s, p.hash) ==>
              && k < su.env.n
              && (su.Correct(k) ==> if su.bound then VotedCommit(sys[k], p.view, p.hash) else SignedApart(sys[k], p))
  {
    var votes := VotesFor(s.commits, p.hash);
    DistinctVoters(su.env, votes, p.hash);
    forall k | k in votes
      ensures k.key < su.env.n
      ensures su.Correct(k.key) ==>
                if su.bound then VotedCommit(sys[k.key], p.view, p.hash) else SignedApart(sys[k.key], p)
    {
      assert Filed(su.env, votes[k], p.hash, k) && FromSender(su, sys, CommitPkt(votes[k]));
    }
  }

  lemma SignQuorumSeen(su: Setup, sys: System, s: Node, p: Msg)
    requires |sys| == su.env.n && Accounted(su, sys, s) && s.prepare == Some(p)
    ensures |CountedSigns(s, p.hash)| == |VotesFor(s.signs, p.hash)|
    ensures forall k :: k in CountedSigns(s, p.hash) ==>
              && k < su.env.n
              && (su.Correct(k) ==> if su.bound then VotedSign(sys[k], p.view, p.hash) else SignedApart(sys[k], p))
  {
    var votes := VotesFor(s.signs, p.hash);
    DistinctVoters(su.env, votes, p.hash);
    forall k | k in votes
      ensures k.key < su.env.n
      ensures su.Correct(k.key) ==>
                if su.bound then VotedSign(sys[k.key], p.view, p.hash) else SignedApart(sys[k.key], p)
    {
      assert Filed(su.env, votes[k], p.hash, k) && FromSender(su, sys, SignPkt(votes[k]));
    }
  }

  // `sys` below already holds everything the node has broadcast.

  lemma SaveAccounted(su: Setup, sys: System, s: Node)
    requires |sys| == su.env.n && Accounted(su, sys, s)
    ensures Accounted(su, sys, CheckAndSave(su.env, s))
  {
    PartAccounted(su, sys, s, CheckAndSave(su.env, s));
  }

  lemma VoteFiled(env: Env, cache: map<Hash, Votes>, m: Msg)
    requires WellKept(env, cache) && CheckSign(env, m)
    ensures WellKept(env, AddVote(cache, m))
    ensures forall p :: InView(cache, p) && (p.hash == m.hash ==> p.view == m.view) ==> InView(AddVote(cache, m), p)
  {
    var cache' := AddVote(cache, m);
    forall h, k | h in cache' && k in cache'[h] ensures Filed(env, cache'[h][k], h, k) {
      if h != m.hash || k != m.sig { assert Filed(env, cache[h][k], h, k); }
    }
  }

  lemma SignVoteAccounted(su: Setup, sys: System, s: Node, m: Msg)
    requires |sys| == su.env.n && Accounted(su, sys, s)
    requires CheckSign(su.env, m) && Authentic(su, sys, SignPkt(m))
    requires Prepared(s, m.hash) ==> s.prepare.value.view == m.view
    ensures Accounted(su, sys, s.(signs := AddVote(s.signs, m)))
  {
    VoteFiled(su.env, s.signs, m);
    var c := AddVote(s.signs, m);
    forall h, k | h in c && k in c[h] ensures FromSender(su, sys, SignPkt(c[h][k])) {
      if h != m.hash || k != m.sig { assert FromSender(su, sys, SignPkt(s.signs[h][k])); }
    }
    assert RequestsSourced(su, sys, s.(signs := c).viewChanges);
  }

  lemma CommitVoteAccounted(su: Setup, sys: System, s: Node, m: Msg)
    requires |sys| == su.env.n && Accounted(su, sys, s)
    requires CheckSign(su.env, m) && Authentic(su, sys, CommitPkt(m))
    requires Prepared(s, m.hash) ==> s.prepare.value.view == m.view
    ensures Accounted(su, sys, s.(commits := AddVote(s.commits, m)))
  {
    VoteFiled(su.env, s.commits, m);
    var c := AddVote(s.commits, m);
    forall h, k | h in c && k in c[h] ensures FromSender(su, sys, CommitPkt(c[h][k])) {
      if h != m.hash || k != m.sig { assert FromSender(su, sys, CommitPkt(s.commits[h][k])); }
    }
    assert RequestsSourced(su, sys, s.(commits := c).viewChanges);
  }

  lemma CommitAccounted(su: Setup, sys: System, s: Node)
    requires |sys| == su.env.n && Accounted(su, sys, s) && su.Correct(s.idx)
    requires forall p :: p in CheckAndCommit(su.env, s).out ==> p in sys[s.idx].out
    ensures Accounted(su, sys, CheckAndCommit(su.env, s))
  {
    if s.prepare.Some? && |VotesFor(s.signs, s.prepare.value.hash)| == su.env.Quorum()
       && s.prepare.value.view == s.view {
      var p := s.prepare.value;
      var own := Own(s.idx, p.height, p.view, p.hash);
      var s1 := s.(committed := s.raw);
      PartAccounted(su, sys, s, s1);
      var s2 := BroadcastCommit(s1, p);
      assert CommitPkt(own) in s2.out && s2.out == CheckAndCommit(su.env, s).out;
      SentIsVouched(su, sys[s.idx], CommitPkt(own));
      CommitVoteAccounted(su, sys, s1, own);
      PartAccounted(su, sys, s1.(commits := AddVote(s1.commits, own)), s2);
      SaveAccounted(su, sys, s2);
    }
  }

  lemma PrepareAccounted(su: Setup, sys: System, s: Node, p: Msg)
    requires |sys| == su.env.n && Accounted(su, sys, s) && p.hash == su.Value(p.height, p.view)
    ensures Accounted(su, sys, AddPrepare(s, p))
  {
    var s' := AddPrepare(s, p);
    PartAccounted(su, sys, s, s'.(prepare := None));
  }

  lemma CommitOutGrows(env: Env, s: Node)
    ensures forall p :: p in s.out ==> p in CheckAndCommit(env, s).out
  {
  }

  lemma AcceptAccounted(su: Setup, sys: System, s: Node, leader: nat)
    requires |sys| == su.env.n && Accounted(su, sys, s) && su.Correct(s.idx)
    requires forall p :: p in Accept(su.env, s, s.consensus, s.view, leader, su.Value(s.consensus, s.view)).out
                      ==> p in sys[s.idx].out
    ensures Accounted(su, sys, Accept(su.env, s, s.consensus, s.view, leader, su.Value(s.consensus, s.view)))
  {
    var x := su.Value(s.consensus, s.view);
    var p := Msg(s.consensus, s.view, leader, x, Signature(s.idx, x), true);
    var own := Own(s.idx, p.height, p.view, p.hash);
    PrepareAccounted(su, sys, s, p);
    var s1 := AddPrepare(s, p);
    var s2 := BroadcastSign(s1, p);
    CommitOutGrows(su.env, s2);
    assert SignPkt(own) in s2.out;
    SentIsVouched(su, sys[s.idx], SignPkt(own));
    SignVoteAccounted(su, sys, s1, own);
    PartAccounted(su, sys, s1.(signs := AddVote(s1.signs, own)), s2);
    CommitAccounted(su, sys, s2);
  }

  lemma HandlePrepareAccounted(su: Setup, sys: System, s: Node, m: Msg, self: bool, valid: bool)
    requires |sys| == su.env.n && Accounted(su, sys, s) && su.Correct(s.idx) && OneProposal(su, m)
    requires forall p :: p in HandlePrepare(su.env, s, m, self, valid).out ==> p in sys[s.idx].out
    ensures Accounted(su, sys, HandlePrepare(su.env, s, m, self, valid))
  {
    var s' := HandlePrepare(su.env, s, m, self, valid);
    var s1 := s.(raw := Some(m));
    PartAccounted(su, sys, s, s1);
    if s' == s.(future := Some(m)) {
      PartAccounted(su, sys, s, s');
    } else if s' != s && s' != s1 {
      AcceptAccounted(su, sys, s1, m.idx);
    }
  }

  lemma TimeoutAccounted(su: Setup, sys: System, s: Node)
    requires |sys| == su.env.n && Accounted(su, sys, s)
    ensures Accounted(su, sys, Timeout(su.env, s))
  {
    PartAccounted(su, sys, s, Timeout(su.env, s));
  }

  lemma StoreAccounted(su: Setup, sys: System, s: Node, m: Msg)
    requires |sys| == su.env.n && Accounted(su, sys, s)
    requires CheckSign(su.env, m) && Authentic(su, sys, ViewChangePkt(m))
    ensures Accounted(su, sys, StoreRequest(s, m))
  {
    var s' := StoreRequest(s, m);
    PartAccounted(su, sys, s, s'.(viewChanges := s.viewChanges));
    forall v, i | v in s'.viewChanges && i in s'.viewChanges[v]
      ensures RequestSourced(su, sys, s'.viewChanges[v][i], i)
    {
      if v != m.view || i != m.idx { assert RequestSourced(su, sys, s.viewChanges[v][i], i); }
    }
    assert RequestsSourced(su, sys, s'.viewChanges);
  }

  lemma FastChangesToView(env: Env, s: Node, order: seq<(nat, nat)>)
    requires Listed(s.viewChanges, order)
    ensures FastViewChange(env, s, order) == s.(toView := FastViewChange(env, s, order).toView)
  {
  }

  lemma ChangeViewAccounted(su: Setup, sys: System, s: Node)
    requires |sys| == su.env.n && Accounted(su, sys, s)
    ensures Accounted(su, sys, CheckAndChangeView(su.env, s))
  {
    var s' := CheckAndChangeView(su.env, s);
    if s' != s {
      PartAccounted(su, sys, s, s');
    }
  }

  lemma FastAccounted(su: Setup, sys: System, s: Node, order: seq<(nat, nat)>)
    requires |sys| == su.env.n && Accounted(su, sys, s) && Listed(s.viewChanges, order)
    ensures Accounted(su, sys, FastViewChange(su.env, s, order))
  {
    FastChangesToView(su.env, s, order);
    var v := FastViewChange(su.env, s, order).toView;
    PartAccounted(su, sys, s, s.(toView := v));
  }

  lemma ViewChangeAccounted(su: Setup, sys: System, s: Node, m: Msg, known: bool, order: seq<(nat, nat)>)
    requires |sys| == su.env.n && Accounted(su, sys, s) && Listed(StoreRequest(s, m).viewChanges, order)
    requires Authentic(su, sys, ViewChangePkt(m))
    ensures Accounted(su, sys, HandleViewChange(su.env, s, m, known, order))
  {
    var s1 := if m.view + 1 < s.toView then BroadcastViewChange(s) else s;
    PartAccounted(su, sys, s, s1);
    if !Rejected(su.env, s1, m, known) {
      StoreAccounted(su, sys, s1, m);
      ChangeViewAccounted(su, sys, StoreRequest(s1, m));
      FastAccounted(su, sys, StoreRequest(s1, m), order);
    }
  }

  lemma SignAccounted(su: Setup, sys: System, s: Node, m: Msg)
    requires |sys| == su.env.n && Accounted(su, sys, s) && su.Correct(s.idx) && Authentic(su, sys, SignPkt(m))
    requires forall p :: p in HandleSign(su.env, s, m).out ==> p in sys[s.idx].out
    ensures Accounted(su, sys, HandleSign(su.env, s, m))
  {
    if CheckSign(su.env, m) && (Prepared(s, m.hash) ==> s.prepare.value.view == m.view) {
      SignVoteAccounted(su, sys, s, m);
      var s1 := s.(signs := AddVote(s.signs, m));
      if HandleSign(su.env, s, m) == CheckAndCommit(su.env, s1) {
        CommitAccounted(su, sys, s1);
      }
    }
  }

  lemma HandleCommitAccounted(su: Setup, sys: System, s: Node, m: Msg)
    requires |sys| == su.env.n && Accounted(su, sys, s) && Authentic(su, sys, CommitPkt(m))
    ensures Accounted(su, sys, HandleCommit(su.env, s, m))
  {
    if CheckSign(su.env, m) && (Prepared(s, m.hash) ==> s.prepare.value.view == m.view) {
      CommitVoteAccounted(su, sys, s, m);
      SaveAccounted(su, sys, s.(commits := AddVote(s.commits, m)));
    }
  }

  lemma ReProposeAccounted(su: Setup, sys: System, s: Node, valid: bool)
    requires |sys| == su.env.n && Accounted(su, sys, s) && su.Correct(s.idx)
    requires ReProposes(su.env, s) ==> s.committed.value.hash == su.proposal(s.consensus, s.view)
    requires forall p :: p in ShouldSeal(su.env, s, valid).out ==> p in sys[s.idx].out
    ensures Accounted(su, sys, ShouldSeal(su.env, s, valid))
  {
    if ReProposes(su.env, s) {
      var m := Own(s.idx, s.committed.value.height, s.view, s.committed.value.hash);
      var s1 := s.(out := s.out + [PreparePkt(m)]);
      PartAccounted(su, sys, s, s1);
      HandlePrepareAccounted(su, sys, s1, m, true, valid);
    }
  }

  lemma ProposeAccounted(su: Setup, sys: System, s: Node)
    requires |sys| == su.env.n && Accounted(su, sys, s) && su.Correct(s.idx)
    requires forall p :: p in Propose(su.env, s, su.proposal(s.consensus, s.view)).out ==> p in sys[s.idx].out
    ensures Accounted(su, sys, Propose(su.env, s, su.proposal(s.consensus, s.view)))
  {
    var m := Own(s.idx, s.consensus, s.view, su.proposal(s.consensus, s.view));
    var s1 := s.(out := s.out + [PreparePkt(m)], raw := Some(m));
    PartAccounted(su, sys, s, s1);
    AcceptAccounted(su, sys, s1, s.idx);
  }

  lemma ApplyAccounted(su: Setup, sys: System, s: Node, e: Event)
    requires |sys| == su.env.n && Accounted(su, sys, s) && su.Correct(s.idx) && Core(su, s)
    requires Enabled(su.env, s, e) && Allowed(su, sys, s, e)
    requires forall p :: p in Apply(su.env, s, e).out ==> p in sys[s.idx].out
    ensures Accounted(su, sys, Apply(su.env, s, e))
  {
    match e
    case RecvPrepare(m, valid) => HandlePrepareAccounted(su, sys, s, m, false, valid);
    case RecvSign(m) => SignAccounted(su, sys, s, m);
    case RecvCommit(m) => HandleCommitAccounted(su, sys, s, m);
    case RecvViewChange(m, known, order) => ViewChangeAccounted(su, sys, s, m, known, order);
    case ViewTimeout => TimeoutAccounted(su, sys, s);
    case BlockReported(number, hash) => PartAccounted(su, sys, s, Report(s, number, hash));
    case FutureBlock(valid) => FutureAccounted(su, sys, s, valid);
    case SealCheck(valid) => ReProposeAccounted(su, sys, s, valid);
    case Seal(hash) => ProposeAccounted(su, sys, s);
    case Garbage => PartAccounted(su, sys, s, CollectGarbage(s));
  }

  lemma FutureAccounted(su: Setup, sys: System, s: Node, valid: bool)
    requires |sys| == su.env.n && Accounted(su, sys, s) && su.Correct(s.idx)
    requires s.future.Some? ==> OneProposal(su, s.future.value)
    requires forall p :: p in HandleFuture(su.env, s, valid).out ==> p in sys[s.idx].out
    ensures Accounted(su, sys, HandleFuture(su.env, s, valid))
  {
    if s.future.Some? && s.future.value.height == s.consensus && s.future.value.view == s.view {
      var s1 := HandlePrepare(su.env, s, s.future.value, false, valid);
      HandlePrepareAccounted(su, sys, s, s.future.value, false, valid);
      PartAccounted(su, sys, s1, s1.(future := None));
    }
  }
}
