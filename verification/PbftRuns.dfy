/**
 Why the hypotheses of the agreement theorem are there: runs of four nodes, of which at most the last is faulty,
 from the initial state to correct nodes that have sealed different blocks at one height.
 */
module PbftRuns {
  import opened Wrappers
  import opened Pbft
  import opened PbftSystem
  import opened PbftVotes
  import opened PbftSafety

  // ----- One node at height 1 -----

  /** The nodes whose votes for `hash` are in the table. */
  predicate HasVotes(cache: map<Hash, Votes>, hash: Hash, ids: set<nat>) {
    VotesFor(cache, hash).Keys == set i | i in ids :: Signature(i, hash)
  }

  lemma {:induction false} KeyCount(ids: set<nat>, hash: Hash)
    ensures |set i | i in ids :: Signature(i, hash)| == |ids|
  {
    if ids != {} {
      var i :| i in ids;
      KeyCount(ids - {i}, hash);
      var rest := set j | j in ids - {i} :: Signature(j, hash);
      assert (set j | j in ids :: Signature(j, hash)) == rest + {Signature(i, hash)};
    }
  }

  lemma VoteCount(cache: map<Hash, Votes>, hash: Hash, ids: set<nat>)
    requires HasVotes(cache, hash, ids)
    ensures |VotesFor(cache, hash)| == |ids|
  {
    KeyCount(ids, hash);
    assert |VotesFor(cache, hash)| == |VotesFor(cache, hash).Keys|;
  }

  lemma VoteAdded(cache: map<Hash, Votes>, m: Msg, ids: set<nat>)
    requires HasVotes(cache, m.hash, ids) && m.sig == Signature(m.idx, m.hash)
    ensures HasVotes(AddVote(cache, m), m.hash, ids + {m.idx})
    ensures forall h, i :: h != m.hash && HasVotes(cache, h, i) ==> HasVotes(AddVote(cache, m), h, i)
  {
  }

  /** The node stands in `view` of height 1 with a proposal of that view prepared and these votes for it. */
  predicate At(s: Node, i: nat, view: nat, hash: Hash, signs: set<nat>, commits: set<nat>) {
    && s.idx == i && s.view == view && s.consensus == 1 && s.highest == 0
    && s.prepare.Some? && s.prepare.value.hash == hash && s.prepare.value.view == view && s.prepare.value.height == 1
    && HasVotes(s.signs, hash, signs) && HasVotes(s.commits, hash, commits)
  }

  function Vote(i: nat, view: nat, hash: Hash): Msg { Own(i, 1, view, hash) }

  /** One more sign vote, short of a quorum. */
  lemma SignCounted(env: Env, s: Node, i: nat, view: nat, hash: Hash, signs: set<nat>, commits: set<nat>, k: nat)
    requires At(s, i, view, hash, signs, commits) && k < env.n && k != i && k !in signs && |signs| + 1 < env.Quorum()
    ensures var s' := HandleSign(env, s, Vote(k, view, hash));
            && At(s', i, view, hash, signs + {k}, commits) && s' == s.(signs := s'.signs)
  {
    VoteAdded(s.signs, Vote(k, view, hash), signs);
    VoteCount(AddVote(s.signs, Vote(k, view, hash)), hash, signs + {k});
  }

  /** The sign vote that completes the quorum takes the lock and sends the commit vote. */
  lemma SignCompletes(env: Env, s: Node, i: nat, view: nat, hash: Hash, signs: set<nat>, commits: set<nat>, k: nat)
    requires At(s, i, view, hash, signs, commits) && k < env.n && k != i && k !in signs && |signs| + 1 == env.Quorum()
    requires i !in commits && |commits| + 1 < env.Quorum()
    ensures var s' := HandleSign(env, s, Vote(k, view, hash));
            && At(s', i, view, hash, signs + {k}, commits + {i})
            && s' == s.(signs := s'.signs, commits := s'.commits, committed := s.raw,
                        out := s.out + [CommitPkt(Vote(i, view, hash))])
  {
    var s1 := s.(signs := AddVote(s.signs, Vote(k, view, hash)));
    VoteAdded(s.signs, Vote(k, view, hash), signs);
    assert HandleSign(env, s, Vote(k, view, hash)) == CheckAndCommit(env, s1);
    CommitsNow(env, s1, i, view, hash, signs + {k}, commits);
  }

  lemma CommitsNow(env: Env, s: Node, i: nat, view: nat, hash: Hash, signs: set<nat>, commits: set<nat>)
    requires At(s, i, view, hash, signs, commits) && |signs| == env.Quorum() && i !in commits
    requires |commits| + 1 < env.Quorum()
    ensures var s' := CheckAndCommit(env, s);
            && At(s', i, view, hash, signs, commits + {i})
            && s' == s.(commits := s'.commits, committed := s.raw, out := s.out + [CommitPkt(Vote(i, view, hash))])
  {
    VoteCount(s.signs, hash, signs);
    VoteAdded(s.commits, Vote(i, view, hash), commits);
    VoteCount(AddVote(s.commits, Vote(i, view, hash)), hash, commits + {i});
  }

  lemma CommitCounted(env: Env, s: Node, i: nat, view: nat, hash: Hash, signs: set<nat>, commits: set<nat>, k: nat)
    requires At(s, i, view, hash, signs, commits) && k < env.n && k != i && k !in commits
    requires |commits| + 1 < env.Quorum()
    ensures var s' := HandleCommit(env, s, Vote(k, view, hash));
            && At(s', i, view, hash, signs, commits + {k}) && s' == s.(commits := s'.commits)
  {
    VoteAdded(s.commits, Vote(k, view, hash), commits);
    VoteCount(AddVote(s.commits, Vote(k, view, hash)), hash, commits + {k});
  }

  lemma CommitSeals(env: Env, s: Node, i: nat, view: nat, hash: Hash, signs: set<nat>, commits: set<nat>, k: nat)
    requires At(s, i, view, hash, signs, commits) && k < env.n && k != i && k !in commits
    requires |commits| + 1 == env.Quorum()
    requires |signs| >= env.Quorum()
    ensures var s' := HandleCommit(env, s, Vote(k, view, hash));
            s' == s.(commits := s'.commits, sealed := s.sealed + [s.prepare.value])
  {
    VoteAdded(s.commits, Vote(k, view, hash), commits);
    VoteCount(AddVote(s.commits, Vote(k, view, hash)), hash, commits + {k});
    VoteCount(s.signs, hash, signs);
  }

  lemma Accepted(env: Env, s: Node, i: nat, view: nat, leader: nat, hash: Hash)
    requires s.idx == i && s.view == view && s.consensus == 1 && s.highest == 0 && s.signs == map[]
    requires s.commits == map[]
    requires env.Quorum() > 1
    ensures var s' := Accept(env, s, 1, view, leader, hash);
            && At(s', i, view, hash, {i}, {})
            && s' == s.(prepare := s'.prepare, signs := s'.signs, commits := s'.commits,
                        out := s.out + [SignPkt(Vote(i, view, hash))])
  {
    var p := Msg(1, view, leader, hash, Signature(i, hash), true);
    assert HasVotes(map[], hash, {});
    VoteAdded(map[], Vote(i, view, hash), {});
    assert AddPrepare(s, p) == s.(prepare := Some(p));
    VoteCount(AddVote(map[], Vote(i, view, hash)), hash, {} + {i});
  }

  // ----- Changing to view 1 -----

  function Ask(i: nat): Msg { Own(i, 0, 1, 0) }

  /** Nothing of a view change has happened yet. */
  predicate Calm(s: Node) {
    s.view == s.toView == 0 && s.viewChanges == map[] && s.consensus == 1 && s.highest == 0 &&
        s.highestHash == 0 && !s.leaderFailed
  }

  /** Wants view 1, with no request for it in store. */
  predicate Wanting(s: Node, i: nat) {
    && s.idx == i && s.view == 0 && s.toView == 1 && 1 !in s.viewChanges
    && s.consensus == 1 && s.highest == 0 && s.highestHash == 0
  }

  /** Has given view 0 up and asked for view 1, having sealed nothing. */
  predicate GaveUp(s: Node, i: nat) {
    Wanting(s, i) && s.viewChanges == map[] && s.sealed == [] && ViewChangePkt(Ask(i)) in s.out
  }

  lemma TimesOut(s: Node)
    requires Calm(s)
    ensures var s' := Timeout(Four(), s);
            s' == s.(leaderFailed := true, toView := 1, out := s.out + [ViewChangePkt(Ask(s.idx))])
  {
  }

  /** A verifying message of view 1, made above the head or on it. */
  predicate ForViewOne(m: Msg) { CheckSign(Four(), m) && m.view == 1 && Current(m, 0, 0) }

  lemma FirstRequest(s: Node, i: nat, m: Msg, order: seq<(nat, nat)>)
    requires Wanting(s, i) && ForViewOne(m) && m.idx != i && Listed(StoreRequest(s, m).viewChanges, order)
    ensures HandleViewChange(Four(), s, m, true, order) == StoreRequest(s, m)
  {
    assert RequestsFor(StoreRequest(s, m).viewChanges, 1) == map[m.idx := m];
  }

  /** Two requests from others open view 1, with nothing left of view 0 but the lock. */
  lemma SecondRequest(s: Node, i: nat, m: Msg, m': Msg, order: seq<(nat, nat)>)
    requires Wanting(s, i) && ForViewOne(m) && ForViewOne(m') && m.idx != i && m'.idx != i && m.idx != m'.idx
    requires Listed(StoreRequest(StoreRequest(s, m), m').viewChanges, order)
    ensures var s2 := HandleViewChange(Four(), StoreRequest(s, m), m', true, order);
            && s2 == ChangeView(StoreRequest(StoreRequest(s, m), m'))
            && s2.view == 1 && s2.idx == i && s2.committed == s.committed && s2.out == s.out && s2.sealed == s.sealed
  {
    var s2 := StoreRequest(StoreRequest(s, m), m');
    assert RequestsFor(s2.viewChanges, 1) == map[m.idx := m, m'.idx := m'];
    assert |map[m.idx := m, m'.idx := m']| == 2;
  }

  /** Any set can be visited in some order. */
  lemma {:induction false} Lined<T>(all: set<T>) returns (order: seq<T>)
    ensures forall e :: e in order <==> e in all
    ensures forall a, b :: 0 <= a < b < |order| ==> order[a] != order[b]
  {
    if all == {} {
      order := [];
    } else {
      var e :| e in all;
      order := Lined(all - {e});
      order := order + [e];
    }
  }

  lemma SomeOrder(vcs: Requests) returns (order: seq<(nat, nat)>)
    ensures Enumerates(vcs, order)
  {
    order := Lined(set v, i | v in vcs && i in vcs[v] :: (v, i));
  }

  // ----- Runs -----

  /** A step in which proposals are those of the setup only if `single`. */
  ghost predicate Move(su: Setup, sys: System, sys': System, i: nat, e: Event, single: bool) {
    && |sys| == |sys'| == su.env.n && su.Correct(i) && Enabled(su.env, sys[i], e)
    && Delivered(su, sys, e) && (single ==> OnlyProposals(su, sys[i], e))
    && sys' == sys[i := Apply(su.env, sys[i], e)]
  }

  ghost predicate Moves(su: Setup, sys: System, sys': System, single: bool) {
    exists i, e :: Move(su, sys, sys', i, e, single)
  }

  ghost predicate Walk(su: Setup, run: seq<System>, single: bool) {
    && |run| > 0 && Init(su, run[0])
    && forall t, u :: 0 <= t < u < |run| && u == t + 1 ==> Moves(su, run[t], run[u], single)
  }

  lemma WalkIsRun(su: Setup, run: seq<System>)
    requires Walk(su, run, true)
    ensures Run(su, run)
  {
    forall t, u | 0 <= t < u < |run| && u == t + 1 ensures Next(su, run[t], run[u]) {
      assert Moves(su, run[t], run[u], true);
      var i: nat, e :| Move(su, run[t], run[u], i, e, true);
      assert Step(su, run[t], run[u], i, e);
    }
  }

  ghost predicate Reached(su: Setup, sys: System, single: bool) {
    exists run :: Walk(su, run, single) && run[|run| - 1] == sys
  }

  lemma Extend(su: Setup, run: seq<System>, i: nat, e: Event, single: bool) returns (sys': System)
    requires Walk(su, run, single)
    requires var sys := run[|run| - 1];
             && |sys| == su.env.n && su.Correct(i) && Enabled(su.env, sys[i], e)
             && Delivered(su, sys, e) && (single ==> OnlyProposals(su, sys[i], e))
    ensures var sys := run[|run| - 1];
            sys' == sys[i := Apply(su.env, sys[i], e)] && Walk(su, run + [sys'], single)
  {
    var sys := run[|run| - 1];
    sys' := sys[i := Apply(su.env, sys[i], e)];
    var run' := run + [sys'];
    assert Move(su, sys, sys', i, e, single);
    forall t, u | 0 <= t < u < |run'| && u == t + 1 ensures Moves(su, run'[t], run'[u], single) {
      if u < |run| { assert Moves(su, run[t], run[u], single); }
    }
  }

  lemma Go(su: Setup, sys: System, i: nat, e: Event, single: bool) returns (sys': System)
    requires Reached(su, sys, single) && |sys| == su.env.n && su.Correct(i) && Enabled(su.env, sys[i], e)
    requires Delivered(su, sys, e) && (single ==> OnlyProposals(su, sys[i], e))
    ensures sys' == sys[i := Apply(su.env, sys[i], e)] && Reached(su, sys', single)
  {
    var run :| Walk(su, run, single) && run[|run| - 1] == sys;
    sys' := Extend(su, run, i, e, single);
    assert (run + [sys'])[|run|] == sys';
  }

  /** What a correct node has sent is authentic, and so is anything in the name of a faulty one. */
  lemma SentIsAuthentic(su: Setup, sys: System, p: Packet)
    requires |sys| == su.env.n && (su.Correct(p.m.idx) ==> p in sys[p.m.idx].out)
    ensures Authentic(su, sys, p)
  {
    if su.Correct(p.m.idx) { SentIsVouched(su, sys[p.m.idx], p); }
  }

  // ----- Four nodes, at most the last of them faulty -----

  function Four(): Env { Env(4, (x: Hash) => x) }

  ghost predicate OfFour(su: Setup) { su.env == Four() && su.faulty <= {3} }

  function Started(i: nat): Node { Initial(i).(consensus := 1) }

  lemma Starts(i: nat)
    ensures Report(Initial(i), 0, 0) == Started(i)
  {
  }

  lemma StartOfRun(su: Setup, single: bool) returns (sys: System)
    requires OfFour(su)
    ensures Reached(su, sys, single) && |sys| == 4
    ensures sys[0] == Started(0) && sys[1] == Started(1) && sys[2] == Started(2) && sys[3] == Initial(3)
  {
    sys := InitReached(su, single);
    sys := GoStart(su, sys, 0, single);
    sys := GoStart(su, sys, 1, single);
    sys := GoStart(su, sys, 2, single);
  }

  lemma InitReached(su: Setup, single: bool) returns (sys: System)
    requires OfFour(su)
    ensures Reached(su, sys, single) && |sys| == 4
    ensures sys[0] == Initial(0) && sys[1] == Initial(1) && sys[2] == Initial(2) && sys[3] == Initial(3)
  {
    sys := [Initial(0), Initial(1), Initial(2), Initial(3)];
    assert Walk(su, [sys], single) && [sys][|[sys]| - 1] == sys;
  }

  lemma GoStart(su: Setup, sys: System, i: nat, single: bool) returns (sys': System)
    requires OfFour(su) && Reached(su, sys, single) && |sys| == 4 && su.Correct(i) && sys[i] == Initial(i)
    ensures Reached(su, sys', single) && |sys'| == 4 && sys' == sys[i := sys'[i]] && sys'[i] == Started(i)
  {
    Starts(i);
    sys' := Go(su, sys, i, BlockReported(0, 0), single);
  }

  /** Has signed the leader's block of view 0 and knows of no other vote. */
  predicate Signed(s: Node, i: nat, hash: Hash) {
    && At(s, i, 0, hash, {i}, {}) && Calm(s) && s.raw == Some(Own(0, 1, 0, hash)) && s.committed == None &&
          s.sealed == []
    && SignPkt(Vote(i, 0, hash)) in s.out
  }

  lemma LeaderSigns(hash: Hash)
    ensures MaySeal(Four(), Started(0)) && Signed(Propose(Four(), Started(0), hash), 0, hash)
  {
    var m := Own(0, 1, 0, hash);
    var s := Started(0).(out := [] + [PreparePkt(m)], raw := Some(m));
    Accepted(Four(), s, 0, 0, 0, hash);
  }

  lemma FollowerSigns(i: nat, hash: Hash)
    requires 0 < i < 4
    ensures Signed(HandlePrepare(Four(), Started(i), Own(0, 1, 0, hash), false, true), i, hash)
  {
    var m := Own(0, 1, 0, hash);
    Accepted(Four(), Started(i).(raw := Some(m)), i, 0, 0, hash);
  }

  /** Nodes 0, 1 and 2 sign `hash` in view 0. */
  lemma AllSign(su: Setup, hash: Hash, single: bool) returns (sys: System)
    requires OfFour(su) && (single ==> su.proposal(1, 0) == hash)
    ensures |sys| == 4 && Reached(su, sys, single)
    ensures Signed(sys[0], 0, hash) && Signed(sys[1], 1, hash) && Signed(sys[2], 2, hash) && sys[3] == Initial(3)
  {
    sys := StartOfRun(su, single);
    sys := GoPropose(su, sys, hash, single);
    sys := GoFollow(su, sys, 1, hash, single);
    sys := GoFollow(su, sys, 2, hash, single);
  }

  lemma GoPropose(su: Setup, sys: System, hash: Hash, single: bool) returns (sys': System)
    requires OfFour(su) && (single ==> su.proposal(1, 0) == hash)
    requires Reached(su, sys, single) && |sys| == 4 && sys[0] == Started(0)
    ensures Reached(su, sys', single) && |sys'| == 4 && sys'[1..] == sys[1..] && Signed(sys'[0], 0, hash)
  {
    LeaderSigns(hash);
    sys' := Go(su, sys, 0, Seal(hash), single);
  }

  lemma GoFollow(su: Setup, sys: System, i: nat, hash: Hash, single: bool) returns (sys': System)
    requires OfFour(su) && (single ==> su.proposal(1, 0) == hash)
    requires Reached(su, sys, single) && |sys| == 4 && 0 < i < 3 && sys[i] == Started(i)
    ensures Reached(su, sys', single) && |sys'| == 4 && Signed(sys'[i], i, hash) && sys' == sys[i := sys'[i]]
  {
    FollowerSigns(i, hash);
    sys' := Go(su, sys, i, RecvPrepare(Own(0, 1, 0, hash), true), single);
  }

  /** A vote shows hash and fields of the node that cast it, whatever kind it arrives as. */
  lemma VoteIsVouched(su: Setup, s: Node, i: nat, view: nat, hash: Hash, p: Packet)
    requires SignPkt(Vote(i, view, hash)) in s.out && p.m == Vote(i, view, hash) && (su.bound ==> p.SignPkt?)
    ensures Vouched(su, s, p)
  {
    assert SignPkt(Vote(i, view, hash)).m == p.m;
  }

  /** Stands in view 1 with nothing in hand but the lock. */
  predicate Fresh(s: Node, i: nat) {
    && s.idx == i && s.view == 1 && s.consensus == 1 && s.highest == 0 && !s.leaderFailed && s.raw == None
    && s.signs == map[] && s.commits == map[] && s.sealed == []
  }

  lemma GoTimeout(su: Setup, sys: System, i: nat, single: bool) returns (sys': System)
    requires OfFour(su) && Reached(su, sys, single) && |sys| == 4 && su.Correct(i)
    requires sys[i].idx == i && Calm(sys[i]) && sys[i].sealed == []
    ensures Reached(su, sys', single) && |sys'| == 4 && sys' == sys[i := sys'[i]]
    ensures GaveUp(sys'[i], i) && sys'[i].committed == sys[i].committed
  {
    TimesOut(sys[i]);
    sys' := Go(su, sys, i, ViewTimeout, single);
  }

  /** Node 3, if correct, starts and gives view 0 up as well. */
  lemma LastGivesUp(su: Setup, sys: System, single: bool) returns (sys': System)
    requires OfFour(su) && Reached(su, sys, single) && |sys| == 4 && sys[3] == Initial(3)
    ensures Reached(su, sys', single) && |sys'| == 4 && sys' == sys[3 := sys'[3]]
    ensures su.Correct(3) ==> GaveUp(sys'[3], 3) && sys'[3].committed == None
  {
    sys' := sys;
    if su.Correct(3) {
      sys' := GoStart(su, sys', 3, single);
      sys' := GoTimeout(su, sys', 3, single);
    }
  }

  lemma GoFirst(su: Setup, sys: System, i: nat, m: Msg, single: bool) returns (sys': System)
    requires OfFour(su) && Reached(su, sys, single) && |sys| == 4 && su.Correct(i)
    requires Wanting(sys[i], i) && ForViewOne(m) && m.idx != i && Authentic(su, sys, ViewChangePkt(m))
    ensures Reached(su, sys', single) && sys' == sys[i := StoreRequest(sys[i], m)]
  {
    var order := SomeOrder(StoreRequest(sys[i], m).viewChanges);
    FirstRequest(sys[i], i, m, order);
    sys' := Go(su, sys, i, RecvViewChange(m, true, order), single);
  }

  lemma GoSecond(su: Setup, sys: System, s: Node, i: nat, m: Msg, m': Msg, single: bool) returns (sys': System)
    requires OfFour(su) && Reached(su, sys, single) && |sys| == 4 && su.Correct(i)
    requires Wanting(s, i) && ForViewOne(m) && ForViewOne(m') && m.idx != i && m'.idx != i && m.idx != m'.idx
    requires sys[i] == StoreRequest(s, m) && Authentic(su, sys, ViewChangePkt(m'))
    ensures Reached(su, sys', single) && sys' == sys[i := ChangeView(StoreRequest(sys[i], m'))]
  {
    var order := SomeOrder(StoreRequest(sys[i], m').viewChanges);
    SecondRequest(s, i, m, m', order);
    sys' := Go(su, sys, i, RecvViewChange(m', true, order), single);
  }

  /** Node `i` goes to view 1 on the requests of nodes `k` and `l`. */
  lemma GoTurn(su: Setup, sys: System, i: nat, k: nat, l: nat, single: bool) returns (sys': System)
    requires OfFour(su) && Reached(su, sys, single) && |sys| == 4 && su.Correct(i) && k < 4 && l < 4
    requires i != k && i != l && k != l && Wanting(sys[i], i) && sys[i].sealed == []
    requires Sent(su, sys, ViewChangePkt(Ask(k))) && Sent(su, sys, ViewChangePkt(Ask(l)))
    ensures Reached(su, sys', single) && |sys'| == 4 && sys' == sys[i := sys'[i]]
    ensures Fresh(sys'[i], i) && sys'[i].committed == sys[i].committed && sys'[i].out == sys[i].out
  {
    SentIsAuthentic(su, sys, ViewChangePkt(Ask(k)));
    sys' := GoFirst(su, sys, i, Ask(k), single);
    SentIsAuthentic(su, sys', ViewChangePkt(Ask(l)));
    sys' := GoSecond(su, sys', sys[i], i, Ask(k), Ask(l), single);
  }

  /** A correct sender has sent it. */
  ghost predicate Sent(su: Setup, sys: System, p: Packet)
    requires |sys| == 4
  {
    p.m.idx < 4 && (su.Correct(p.m.idx) ==> p in sys[p.m.idx].out)
  }

  /** Nodes 1 and 2 time out and go to view 1 on each other's request and one of node 3. */
  lemma TwoTurn(su: Setup, sys: System, single: bool) returns (sys': System)
    requires OfFour(su) && Reached(su, sys, single) && |sys| == 4 && Sent(su, sys, ViewChangePkt(Ask(3)))
    requires sys[1].idx == 1 && sys[2].idx == 2 && Calm(sys[1]) && Calm(sys[2]) && sys[1].sealed == sys[2].sealed == []
    ensures Reached(su, sys', single) && |sys'| == 4 && sys'[0] == sys[0] && sys'[3] == sys[3]
    ensures Fresh(sys'[1], 1) && Fresh(sys'[2], 2)
    ensures sys'[1].committed == sys[1].committed && sys'[2].committed == sys[2].committed
    ensures Sent(su, sys', ViewChangePkt(Ask(1))) && Sent(su, sys', ViewChangePkt(Ask(2)))
  {
    sys' := GoTimeout(su, sys, 1, single);
    sys' := GoTimeout(su, sys', 2, single);
    sys' := GoTurn(su, sys', 1, 2, 3, single);
    sys' := GoTurn(su, sys', 2, 1, 3, single);
  }

  /** Node `k`'s vote for `hash` in `view`, sent as this kind of packet, verifies under the signatures `k` has given. */
  ghost predicate Usable(su: Setup, sys: System, k: nat, p: Packet)
    requires |sys| == 4
  {
    k < 4 && (su.Correct(k) ==> Vouched(su, sys[k], p))
  }

  /** Two sign votes from others complete the quorum: the node locks and sends its commit vote. */
  lemma GetSigns(su: Setup, sys: System, i: nat, view: nat, hash: Hash, k: nat, l: nat, single: bool)
      returns (sys': System)
    requires OfFour(su) && Reached(su, sys, single) && |sys| == 4 && su.Correct(i) && i != k && i != l && k != l
    requires At(sys[i], i, view, hash, {i}, {})
    requires Usable(su, sys, k, SignPkt(Vote(k, view, hash))) && Usable(su, sys, l, SignPkt(Vote(l, view, hash)))
    ensures Reached(su, sys', single) && |sys'| == 4 && sys' == sys[i := sys'[i]]
    ensures At(sys'[i], i, view, hash, {i} + {k} + {l}, {} + {i})
    ensures var s, s' := sys[i], sys'[i];
            s' == s.(signs := s'.signs, commits := s'.commits, committed := s.raw,
                      out := s.out + [CommitPkt(Vote(i, view, hash))])
  {
    sys' := GoSign(su, sys, i, view, hash, k, single);
    sys' := GoSignLast(su, sys', i, view, hash, {i} + {k}, l, single);
  }

  lemma GoSign(su: Setup, sys: System, i: nat, view: nat, hash: Hash, k: nat, single: bool) returns (sys': System)
    requires OfFour(su) && Reached(su, sys, single) && |sys| == 4 && su.Correct(i) && i != k
    requires At(sys[i], i, view, hash, {i}, {}) && Usable(su, sys, k, SignPkt(Vote(k, view, hash)))
    ensures Reached(su, sys', single) && |sys'| == 4 && sys' == sys[i := sys'[i]]
    ensures At(sys'[i], i, view, hash, {i} + {k}, {}) && sys'[i] == sys[i].(signs := sys'[i].signs)
  {
    SignCounted(Four(), sys[i], i, view, hash, {i}, {}, k);
    sys' := Go(su, sys, i, RecvSign(Vote(k, view, hash)), single);
  }

  lemma GoSignLast(su: Setup, sys: System, i: nat, view: nat, hash: Hash, signs: set<nat>, l: nat, single: bool)
    returns (sys': System)
    requires OfFour(su) && Reached(su, sys, single) && |sys| == 4 && su.Correct(i) && i != l
    requires l !in signs && |signs| == 2
    requires At(sys[i], i, view, hash, signs, {}) && Usable(su, sys, l, SignPkt(Vote(l, view, hash)))
    ensures Reached(su, sys', single) && |sys'| == 4 && sys' == sys[i := sys'[i]]
    ensures At(sys'[i], i, view, hash, signs + {l}, {} + {i})
    ensures var s, s' := sys[i], sys'[i];
            s' == s.(signs := s'.signs, commits := s'.commits, committed := s.raw,
                      out := s.out + [CommitPkt(Vote(i, view, hash))])
  {
    SignCompletes(Four(), sys[i], i, view, hash, signs, {}, l);
    sys' := Go(su, sys, i, RecvSign(Vote(l, view, hash)), single);
  }

  /** Two more commit votes, and the block is sealed. */
  lemma GetCommits(su: Setup, sys: System, i: nat, view: nat, hash: Hash, signs: set<nat>, k: nat, l: nat, single: bool)
    returns (sys': System)
    requires OfFour(su) && Reached(su, sys, single) && |sys| == 4 && su.Correct(i) && i != k
    requires i != l && k != l && |signs| == 3
    requires At(sys[i], i, view, hash, signs, {} + {i})
    requires Usable(su, sys, k, CommitPkt(Vote(k, view, hash))) && Usable(su, sys, l, CommitPkt(Vote(l, view, hash)))
    ensures Reached(su, sys', single) && |sys'| == 4 && sys' == sys[i := sys'[i]]
    ensures var s, s' := sys[i], sys'[i];
            s' == s.(commits := s'.commits, sealed := s.sealed + [s.prepare.value])
  {
    CommitCounted(Four(), sys[i], i, view, hash, signs, {} + {i}, k);
    sys' := Go(su, sys, i, RecvCommit(Vote(k, view, hash)), single);
    CommitSeals(Four(), sys'[i], i, view, hash, signs, {} + {i} + {k}, l);
    sys' := Go(su, sys', i, RecvCommit(Vote(l, view, hash)), single);
  }

  ghost predicate Sealed(s: Node, hash: Hash) { exists p :: p in s.sealed && p.height == 1 && p.hash == hash }

  // ----- Without bound signatures -----

  /** Node 1 leads view 1 and proposes; it and node 2 sign, and node 3 if correct. */
  lemma SecondProposal(su: Setup, sys: System, hash: Hash, single: bool) returns (sys': System)
    requires OfFour(su) && (single ==> su.proposal(1, 1) == hash)
    requires Reached(su, sys, single) && |sys| == 4 && Fresh(sys[1], 1) && Fresh(sys[2], 2)
    requires sys[1].committed == sys[2].committed == None
    requires su.Correct(3) ==> Fresh(sys[3], 3) && sys[3].committed == None
    ensures Reached(su, sys', single) && |sys'| == 4 && sys'[0] == sys[0]
    ensures At(sys'[1], 1, 1, hash, {1}, {}) && sys'[1].sealed == []
    ensures SignPkt(Vote(2, 1, hash)) in sys'[2].out && Sent(su, sys', SignPkt(Vote(3, 1, hash)))
  {
    sys' := GoLead(su, sys, hash, single);
    sys' := GoAccept(su, sys', 2, hash, single);
    if su.Correct(3) { sys' := GoAccept(su, sys', 3, hash, single); }
  }

  lemma GoLead(su: Setup, sys: System, hash: Hash, single: bool) returns (sys': System)
    requires OfFour(su) && (single ==> su.proposal(1, 1) == hash)
    requires Reached(su, sys, single) && |sys| == 4 && Fresh(sys[1], 1) && sys[1].committed == None
    ensures Reached(su, sys', single) && |sys'| == 4 && sys' == sys[1 := sys'[1]]
    ensures At(sys'[1], 1, 1, hash, {1}, {}) && sys'[1].sealed == []
    ensures sys'[1].out == sys[1].out + [PreparePkt(Own(1, 1, 1, hash)), SignPkt(Vote(1, 1, hash))]
  {
    var m := Own(1, 1, 1, hash);
    Accepted(Four(), sys[1].(out := sys[1].out + [PreparePkt(m)], raw := Some(m)), 1, 1, 1, hash);
    sys' := Go(su, sys, 1, Seal(hash), single);
  }

  /** A node signs what node 1 proposes in view 1, unless it is locked on something else. */
  lemma GoAccept(su: Setup, sys: System, i: nat, hash: Hash, single: bool) returns (sys': System)
    requires OfFour(su) && (single ==> su.proposal(1, 1) == hash)
    requires Reached(su, sys, single) && |sys| == 4 && su.Correct(i) && i != 1 && Fresh(sys[i], i)
    requires sys[i].committed.Some? ==> sys[i].committed.value.hash == hash
    ensures Reached(su, sys', single) && |sys'| == 4 && sys' == sys[i := sys'[i]]
    ensures At(sys'[i], i, 1, hash, {i}, {}) && SignPkt(Vote(i, 1, hash)) in sys'[i].out
  {
    FollowerAccepts(sys[i], i, hash);
    sys' := Go(su, sys, i, RecvPrepare(Own(1, 1, 1, hash), true), single);
  }

  lemma FollowerAccepts(s: Node, i: nat, hash: Hash)
    requires i != 1 && Fresh(s, i) && (s.committed.Some? ==> s.committed.value.hash == hash)
    ensures var s' := HandlePrepare(Four(), s, Own(1, 1, 1, hash), false, true);
            At(s', i, 1, hash, {i}, {}) && SignPkt(Vote(i, 1, hash)) in s'.out
  {
    Accepted(Four(), s.(raw := Some(Own(1, 1, 1, hash))), i, 1, 1, hash);
  }

  /**
   With signatures as the code makes them, a sign vote verifies as a commit vote. Node 0 counts the sign votes of
   nodes 1 and 2 also as their commit votes and seals the block of view 0; nodes 1, 2 and 3, which have not locked,
   give view 0 up, and node 1 does the same with the block of view 1. No node need be faulty.
   */
  lemma SignVotesCountedAsCommits(su: Setup) returns (run: seq<System>)
    requires OfFour(su) && !su.bound
    ensures Run(su, run) && |run[|run| - 1]| == 4
    ensures var sys := run[|run| - 1]; Sealed(sys[0], su.proposal(1, 0)) && Sealed(sys[1], su.proposal(1, 1))
  {
    var first, second := su.proposal(1, 0), su.proposal(1, 1);
    var sys := AllSign(su, first, true);
    sys := FirstSeals(su, sys, first);
    sys := LastGivesUp(su, sys, true);
    sys := TwoTurn(su, sys, true);
    if su.Correct(3) { sys := GoTurn(su, sys, 3, 1, 2, true); }
    sys := SecondProposal(su, sys, second, true);
    sys := SecondSeals(su, sys, second);
    run :| Walk(su, run, true) && run[|run| - 1] == sys;
    WalkIsRun(su, run);
  }

  lemma FirstSeals(su: Setup, sys: System, hash: Hash) returns (sys': System)
    requires OfFour(su) && !su.bound && Reached(su, sys, true) && |sys| == 4
    requires Signed(sys[0], 0, hash) && Signed(sys[1], 1, hash) && Signed(sys[2], 2, hash)
    ensures Reached(su, sys', true) && |sys'| == 4 && sys'[1..] == sys[1..] && Sealed(sys'[0], hash)
  {
    VoteIsVouched(su, sys[1], 1, 0, hash, SignPkt(Vote(1, 0, hash)));
    VoteIsVouched(su, sys[2], 2, 0, hash, SignPkt(Vote(2, 0, hash)));
    VoteIsVouched(su, sys[1], 1, 0, hash, CommitPkt(Vote(1, 0, hash)));
    VoteIsVouched(su, sys[2], 2, 0, hash, CommitPkt(Vote(2, 0, hash)));
    sys' := GetSigns(su, sys, 0, 0, hash, 1, 2, true);
    var p := sys'[0].prepare.value;
    sys' := GetCommits(su, sys', 0, 0, hash, {0} + {1} + {2}, 1, 2, true);
    assert p in sys'[0].sealed;
  }

  lemma SecondSeals(su: Setup, sys: System, hash: Hash) returns (sys': System)
    requires OfFour(su) && !su.bound && Reached(su, sys, true) && |sys| == 4 && At(sys[1], 1, 1, hash, {1}, {})
    requires SignPkt(Vote(2, 1, hash)) in sys[2].out && Sent(su, sys, SignPkt(Vote(3, 1, hash)))
    ensures Reached(su, sys', true) && |sys'| == 4 && sys'[0] == sys[0] && Sealed(sys'[1], hash)
  {
    forall k | k == 2 || (k == 3 && su.Correct(k))
      ensures Vouched(su, sys[k], SignPkt(Vote(k, 1, hash))) && Vouched(su, sys[k], CommitPkt(Vote(k, 1, hash)))
    {
      VoteIsVouched(su, sys[k], k, 1, hash, SignPkt(Vote(k, 1, hash)));
      VoteIsVouched(su, sys[k], k, 1, hash, CommitPkt(Vote(k, 1, hash)));
    }
    sys' := LeaderSeals(su, sys, hash, true);
  }

  ghost predicate Agrees(su: Setup, sys: System) {
    |sys| == su.env.n ==>
      forall i: nat, j: nat, p, q ::
        (su.Correct(i) && su.Correct(j) && p in sys[i].sealed && q in sys[j].sealed && p.height == q.height) ==>
          p.hash == q.hash
  }

  ghost predicate AlwaysAgrees(su: Setup) {
    forall run, t :: Run(su, run) && 0 <= t < |run| ==> Agrees(su, run[t])
  }

  /**
   Four nodes whose leaders of views 0 and 1 propose different blocks
   agree in every run exactly if signatures are bound.
   */
  lemma AgreementIffBound(su: Setup)
    requires su.Valid() && OfFour(su) && su.proposal(1, 0) != su.proposal(1, 1)
    ensures AlwaysAgrees(su) <==> su.bound
  {
    if su.bound {
      forall run, t | Run(su, run) && 0 <= t < |run| ensures Agrees(su, run[t]) {
        BoundRunAgrees(su, run, t);
      }
    } else {
      var run := SignVotesCountedAsCommits(su);
      var sys := run[|run| - 1];
      var p :| p in sys[0].sealed && p.height == 1 && p.hash == su.proposal(1, 0);
      var q :| q in sys[1].sealed && q.height == 1 && q.hash == su.proposal(1, 1);
      assert su.Correct(0) && su.Correct(1);
      assert !Agrees(su, sys);
    }
  }

  lemma BoundRunAgrees(su: Setup, run: seq<System>, t: nat)
    requires su.Valid() && su.bound && Run(su, run) && t < |run|
    ensures Agrees(su, run[t])
  {
    if |run[t]| == su.env.n {
      forall i: nat, j: nat, p, q | su.Correct(i) && su.Correct(j) && p in run[t][i].sealed && q in run[t][j].sealed
        && p.height == q.height ensures p.hash == q.hash
      {
        BoundAgreement(su, run, t, i, j, p, q);
      }
    }
  }

  /** Two blocks per height: one for view 0 and another for all later views. */
  function Blocks(height: nat, view: nat): Hash { 2 * height + if view == 0 then 0 else 1 }

  /** There are such nodes, with and without bound signatures, and with nobody faulty. */
  lemma FourAreValid(faulty: set<nat>, bound: bool) returns (su: Setup)
    requires faulty <= {3}
    ensures su.Valid() && OfFour(su) && su.faulty == faulty && su.bound == bound
    ensures su.proposal(1, 0) != su.proposal(1, 1)
  {
    su := Setup(Four(), faulty, Blocks, (x: Hash) => x / 2, bound);
    SubsetSize(faulty, {3});
    forall h: nat, v: nat ensures su.Value(h, v) / 2 == h {
      assert su.Value(h, v) == Blocks(h, v);
    }
  }

  // ----- Without one proposal per height and view -----

  /** A request for view 0 from node 3, which does not lead, is rejected, but the raw slot has it. */
  lemma GoReject(su: Setup, sys: System, i: nat, hash: Hash, stray: Hash) returns (sys': System)
    requires OfFour(su) && Reached(su, sys, false) && |sys| == 4 && i < 3 && Signed(sys[i], i, hash) && stray != hash
    ensures Reached(su, sys', false) && sys' == sys[i := sys[i].(raw := Some(Own(3, 1, 0, stray)))]
  {
    sys' := Go(su, sys, i, RecvPrepare(Own(3, 1, 0, stray), true), false);
  }

  /** Has signed `hash` in view 0, seen a quorum sign it and sent its commit vote, and is locked on `lock`. */
  ghost predicate Committed(s: Node, i: nat, hash: Hash, lock: Hash) {
    && (exists signs: set<nat> :: |signs| == 3 && At(s, i, 0, hash, signs, {} + {i})) && Calm(s) && s.sealed == []
    && s.committed.Some? && s.committed.value.height == 1 && s.committed.value.hash == lock
    && CommitPkt(Vote(i, 0, hash)) in s.out
  }

  lemma GoCommit(su: Setup, sys: System, i: nat, k: nat, l: nat, hash: Hash) returns (sys': System)
    requires OfFour(su) && Reached(su, sys, false) && |sys| == 4 && i < 3 && k < 3 && l < 3
    requires i != k && i != l && k != l
    requires At(sys[i], i, 0, hash, {i}, {}) && Calm(sys[i]) && sys[i].sealed == []
    requires sys[i].raw.Some? && sys[i].raw.value.height == 1
    requires SignPkt(Vote(k, 0, hash)) in sys[k].out && SignPkt(Vote(l, 0, hash)) in sys[l].out
    ensures Reached(su, sys', false) && |sys'| == 4 && sys' == sys[i := sys'[i]]
    ensures Committed(sys'[i], i, hash, sys[i].raw.value.hash) && forall p :: p in sys[i].out ==> p in sys'[i].out
  {
    SentIsVouched(su, sys[k], SignPkt(Vote(k, 0, hash)));
    SentIsVouched(su, sys[l], SignPkt(Vote(l, 0, hash)));
    sys' := GetSigns(su, sys, i, 0, hash, k, l, false);
    assert |{i} + {k} + {l}| == 3;
  }

  /**
   All three correct nodes commit `hash` in view 0, two of them with the
   stray request as their lock, and node 0 seals.
   */
  lemma CommitAndSeal(su: Setup, hash: Hash, stray: Hash) returns (sys: System)
    requires OfFour(su) && stray != hash
    ensures Reached(su, sys, false) && |sys| == 4 && Sealed(sys[0], hash)
    ensures Committed(sys[1], 1, hash, stray) && Committed(sys[2], 2, hash, stray)
  {
    sys := AllSign(su, hash, false);
    sys := GoReject(su, sys, 1, hash, stray);
    sys := GoReject(su, sys, 2, hash, stray);
    sys := GoCommit(su, sys, 1, 0, 2, hash);
    sys := GoCommit(su, sys, 2, 0, 1, hash);
    sys := GoCommit(su, sys, 0, 1, 2, hash);
    sys := GoSeal(su, sys, hash);
  }

  lemma GoSeal(su: Setup, sys: System, hash: Hash) returns (sys': System)
    requires OfFour(su) && Reached(su, sys, false) && |sys| == 4 && Committed(sys[0], 0, hash, hash)
    requires CommitPkt(Vote(1, 0, hash)) in sys[1].out && CommitPkt(Vote(2, 0, hash)) in sys[2].out
    ensures Reached(su, sys', false) && |sys'| == 4 && sys'[1..] == sys[1..] && Sealed(sys'[0], hash)
  {
    SentIsVouched(su, sys[1], CommitPkt(Vote(1, 0, hash)));
    SentIsVouched(su, sys[2], CommitPkt(Vote(2, 0, hash)));
    var signs: set<nat> :| |signs| == 3 && At(sys[0], 0, 0, hash, signs, {} + {0});
    var p := sys[0].prepare.value;
    sys' := GetCommits(su, sys, 0, 0, hash, signs, 1, 2, false);
    assert p in sys'[0].sealed;
  }

  /** The leader of view 1 is locked on the stray request and puts it forward. */
  lemma GoRepropose(su: Setup, sys: System, stray: Hash) returns (sys': System)
    requires OfFour(su) && Reached(su, sys, false) && |sys| == 4 && Fresh(sys[1], 1)
    requires sys[1].committed.Some? && sys[1].committed.value.height == 1 && sys[1].committed.value.hash == stray
    ensures Reached(su, sys', false) && |sys'| == 4 && sys' == sys[1 := sys'[1]] && At(sys'[1], 1, 1, stray, {1}, {})
    ensures SignPkt(Vote(1, 1, stray)) in sys'[1].out
  {
    LeaderReproposes(sys[1], stray);
    sys' := Go(su, sys, 1, SealCheck(true), false);
  }

  lemma LeaderReproposes(s: Node, stray: Hash)
    requires Fresh(s, 1) && s.committed.Some? && s.committed.value.height == 1 && s.committed.value.hash == stray
    ensures var s' := ShouldSeal(Four(), s, true);
            At(s', 1, 1, stray, {1}, {}) && SignPkt(Vote(1, 1, stray)) in s'.out
  {
    var m := Own(1, 1, 1, stray);
    var s1 := s.(out := s.out + [PreparePkt(m)]);
    assert ReProposes(Four(), s) && ShouldSeal(Four(), s, true) == HandlePrepare(Four(), s1, m, true, true);
    Accepted(Four(), s1.(raw := Some(m)), 1, 1, 1, stray);
  }

  /** Node 1 seals the stray request: with nodes 2 and 3 it has a quorum for it. */
  lemma StraySeals(su: Setup, sys: System, stray: Hash) returns (sys': System)
    requires OfFour(su) && Reached(su, sys, false) && |sys| == 4 && 3 in su.faulty
    requires At(sys[1], 1, 1, stray, {1}, {}) && At(sys[2], 2, 1, stray, {2}, {})
    requires SignPkt(Vote(1, 1, stray)) in sys[1].out && SignPkt(Vote(2, 1, stray)) in sys[2].out
    ensures Reached(su, sys', false) && |sys'| == 4 && sys'[0] == sys[0] && Sealed(sys'[1], stray)
  {
    SentIsVouched(su, sys[1], SignPkt(Vote(1, 1, stray)));
    SentIsVouched(su, sys[2], SignPkt(Vote(2, 1, stray)));
    sys' := GetSigns(su, sys, 2, 1, stray, 1, 3, false);
    assert CommitPkt(Vote(2, 1, stray)) in sys'[2].out;
    SentIsVouched(su, sys'[2], CommitPkt(Vote(2, 1, stray)));
    SentIsVouched(su, sys'[2], SignPkt(Vote(2, 1, stray)));
    sys' := LeaderSeals(su, sys', stray, false);
  }

  /** The leader of view 1 collects both quorums with the votes of nodes 2 and 3. */
  lemma LeaderSeals(su: Setup, sys: System, hash: Hash, single: bool) returns (sys': System)
    requires OfFour(su) && Reached(su, sys, single) && |sys| == 4 && At(sys[1], 1, 1, hash, {1}, {})
    requires Usable(su, sys, 2, SignPkt(Vote(2, 1, hash))) && Usable(su, sys, 2, CommitPkt(Vote(2, 1, hash)))
    requires Usable(su, sys, 3, SignPkt(Vote(3, 1, hash))) && Usable(su, sys, 3, CommitPkt(Vote(3, 1, hash)))
    ensures Reached(su, sys', single) && |sys'| == 4 && sys'[0] == sys[0] && Sealed(sys'[1], hash)
  {
    sys' := GetSigns(su, sys, 1, 1, hash, 2, 3, single);
    var p := sys'[1].prepare.value;
    sys' := GetCommits(su, sys', 1, 1, hash, {1} + {2} + {3}, 2, 3, single);
    assert p in sys'[1].sealed;
  }

  /**
   With bound signatures, but a second request for view 0 from the faulty node 3: nodes 1 and 2 reject it and
   still lock it in place of the block they commit. Node 0 seals that block, node 1 the other in view 1.
   */
  lemma StrayRequestSealed(su: Setup) returns (run: seq<System>)
    requires OfFour(su) && 3 in su.faulty
    ensures Walk(su, run, false) && |run[|run| - 1]| == 4
    ensures var sys := run[|run| - 1]; Sealed(sys[0], 2) && Sealed(sys[1], 5)
  {
    var sys := CommitAndSeal(su, 2, 5);
    sys := TwoTurn(su, sys, false);
    sys := GoRepropose(su, sys, 5);
    sys := GoAccept(su, sys, 2, 5, false);
    sys := StraySeals(su, sys, 5);
    run :| Walk(su, run, false) && run[|run| - 1] == sys;
  }
}
