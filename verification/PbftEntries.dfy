/**
 Why the hypotheses about view entries are there: runs of four nodes from the initial state to entries that
 count what was not sent as a request, or was sent at a lower height.
 */
module PbftEntries {
  import opened Wrappers
  import opened Pbft
  import opened PbftSystem
  import opened PbftVotes
  import opened PbftViews
  import opened PbftSafety
  import opened PbftRuns

  // ----- A vote counted as a request -----

  /** What a node asks for that gives view 1 up as well. */
  function AskNext(i: nat): Msg { Own(i, 0, 2, 0) }

  lemma GoAskTwice(su: Setup, sys: System, i: nat, single: bool) returns (sys': System)
    requires OfFour(su) && Reached(su, sys, single) && |sys| == 4 && su.Correct(i) && GaveUp(sys[i], i)
    ensures Reached(su, sys', single) && |sys'| == 4 && sys' == sys[i := sys'[i]]
    ensures ViewChangePkt(Ask(i)) in sys'[i].out && ViewChangePkt(AskNext(i)) in sys'[i].out
  {
    var s' := Timeout(Four(), sys[i]);
    assert s'.out == sys[i].out + [ViewChangePkt(AskNext(i))];
    sys' := Go(su, sys, i, ViewTimeout, single);
  }

  /** Nodes 2 and 3 give views 0 and 1 up, unless faulty. */
  lemma TwoAskTwice(su: Setup, single: bool) returns (sys: System)
    requires OfFour(su)
    ensures Reached(su, sys, single) && |sys| == 4 && sys[0] == Started(0) && sys[1] == Started(1)
    ensures Sent(su, sys, ViewChangePkt(Ask(2))) && Sent(su, sys, ViewChangePkt(AskNext(2)))
    ensures Sent(su, sys, ViewChangePkt(Ask(3))) && Sent(su, sys, ViewChangePkt(AskNext(3)))
  {
    sys := StartOfRun(su, single);
    sys := GoTimeout(su, sys, 2, single);
    sys := GoAskTwice(su, sys, 2, single);
    sys := LastGivesUp(su, sys, single);
    if su.Correct(3) { sys := GoAskTwice(su, sys, 3, single); }
  }

  function OneNext(): Requests { map[2 := map[2 := AskNext(2)]] }
  function TwoNext(): Requests { map[2 := map[2 := AskNext(2), 3 := AskNext(3)]] }

  /** One request for view 2 is stored; the second makes the node want view 1, which it has asked nobody for. */
  lemma OneStored(s: Node)
    requires s == Started(1)
    ensures Enumerates(StoreRequest(s, AskNext(2)).viewChanges, [(2, 2)])
    ensures HandleViewChange(Four(), s, AskNext(2), true, [(2, 2)]) == s.(viewChanges := OneNext())
  {
    var s1 := s.(viewChanges := OneNext());
    assert StoreRequest(s, AskNext(2)) == s1;
    ScanFirst(s1, (2, 2));
    assert ScanAll(s1, [(2, 2)]).views == map[2 := 2];
  }

  lemma TwoStored(s: Node)
    requires s == Started(1).(viewChanges := OneNext())
    ensures Enumerates(StoreRequest(s, AskNext(3)).viewChanges, [(2, 2), (2, 3)])
    ensures HandleViewChange(Four(), s, AskNext(3), true, [(2, 2), (2, 3)]) == s.(viewChanges := TwoNext(), toView := 1)
  {
    var s2 := s.(viewChanges := TwoNext());
    assert StoreRequest(s, AskNext(3)) == s2;
    FastToOne(s2);
    FastTaken(s, AskNext(3), [(2, 2), (2, 3)]);
  }

  /** What the scan sees of a request for a view that is not the wanted one. */
  lemma FastTaken(s: Node, m: Msg, order: seq<(nat, nat)>)
    requires Listed(StoreRequest(s, m).viewChanges, order)
    requires !Seen(s, m) && m.idx != s.idx && m.view + 1 >= s.toView && m.view != s.toView
    requires !Rejected(Four(), s, m, true)
    ensures HandleViewChange(Four(), s, m, true, order) == FastViewChange(Four(), StoreRequest(s, m), order)
  {
  }

  lemma FastToOne(s: Node)
    requires s == Started(1).(viewChanges := TwoNext())
    ensures Enumerates(s.viewChanges, [(2, 2), (2, 3)])
    ensures FastViewChange(Four(), s, [(2, 2), (2, 3)]) == s.(toView := 1)
  {
    ScanTwo(s, (2, 2), (2, 3));
    var r := ScanAll(s, [(2, 2), (2, 3)]);
    assert r == Scan(map[2 := 2, 3 := 2], Some(2), Some(0));
    assert |r.views| == 2;
  }

  lemma ScanFirst(s: Node, a: (nat, nat))
    requires a.0 in s.viewChanges && a.1 in s.viewChanges[a.0]
    ensures ScanAll(s, [a]) == ScanOne(s, Scan(map[], None, None), a.0, a.1)
  {
    assert [a][..0] == [];
  }

  lemma GoFast(su: Setup, sys: System, single: bool) returns (sys': System)
    requires OfFour(su) && Reached(su, sys, single) && |sys| == 4 && sys[1] == Started(1).(viewChanges := OneNext())
    requires Sent(su, sys, ViewChangePkt(AskNext(3)))
    ensures Reached(su, sys', single) && sys' == sys[1 := Started(1).(viewChanges := TwoNext(), toView := 1)]
  {
    TwoStored(sys[1]);
    SentIsAuthentic(su, sys, ViewChangePkt(AskNext(3)));
    sys' := Go(su, sys, 1, RecvViewChange(AskNext(3), true, [(2, 2), (2, 3)]), single);
  }

  /** Node 1 enters view 1 on the requests of nodes 2 and 3 without having sent anything. */
  lemma EntersUnasked(su: Setup, sys: System, single: bool) returns (sys': System)
    requires OfFour(su) && Reached(su, sys, single) && |sys| == 4 && sys[1] == Started(1)
    requires Sent(su, sys, ViewChangePkt(Ask(2))) && Sent(su, sys, ViewChangePkt(AskNext(2)))
    requires Sent(su, sys, ViewChangePkt(Ask(3))) && Sent(su, sys, ViewChangePkt(AskNext(3)))
    ensures Reached(su, sys', single) && |sys'| == 4 && sys' == sys[1 := sys'[1]]
    ensures Fresh(sys'[1], 1) && sys'[1].committed == None && sys'[1].out == []
  {
    OneStored(sys[1]);
    SentIsAuthentic(su, sys, ViewChangePkt(AskNext(2)));
    sys' := Go(su, sys, 1, RecvViewChange(AskNext(2), true, [(2, 2)]), single);
    sys' := GoFast(su, sys', single);
    sys' := GoTurn(su, sys', 1, 2, 3, single);
  }

  /**
   A vote is counted as a request: node 0 enters view 1 on a request of node 3 and on the sign vote of node 1,
   which has not sent any request for a view.
   */
  lemma VoteCountedAsRequest(su: Setup) returns (run: seq<System>, t: nat, e: Event)
    requires OfFour(su) && !su.bound
    ensures Run(su, run) && Enters(run, t, 0) && Step(su, run[t], run[t + 1], 0, e)
    ensures |run[t]| == 4 && su.Correct(1) && 1 in CountedRequests(run[t][0], e)
    ensures forall m :: ViewChangePkt(m) !in run[t][1].out
  {
    var vote := Vote(1, 1, su.proposal(1, 1));
    var sys, s := VoteStored(su, vote);
    SentIsAuthentic(su, sys, ViewChangePkt(Ask(3)));
    run, e := LastStep(su, sys, s, vote, Ask(3));
    t := |run| - 2;
  }

  /** Node 1 signs in view 1; node 0, which has given view 0 up, receives the vote as a request. */
  lemma VoteStored(su: Setup, vote: Msg) returns (sys: System, s: Node)
    requires OfFour(su) && !su.bound && vote == Vote(1, 1, su.proposal(1, 1))
    ensures Reached(su, sys, true) && |sys| == 4 && Wanting(s, 0) && sys[0] == StoreRequest(s, vote)
    ensures Sent(su, sys, ViewChangePkt(Ask(3))) && forall m :: ViewChangePkt(m) !in sys[1].out
  {
    sys := UnaskedSigns(su);
    sys := GoTimeout(su, sys, 0, true);
    s := sys[0];
    VoteIsVouched(su, sys[1], 1, 1, su.proposal(1, 1), ViewChangePkt(vote));
    sys := GoFirst(su, sys, 0, vote, true);
  }

  lemma UnaskedSigns(su: Setup) returns (sys: System)
    requires OfFour(su)
    ensures Reached(su, sys, true) && |sys| == 4 && sys[0] == Started(0) && Sent(su, sys, ViewChangePkt(Ask(3)))
    ensures SignPkt(Vote(1, 1, su.proposal(1, 1))) in sys[1].out && forall m :: ViewChangePkt(m) !in sys[1].out
  {
    sys := TwoAskTwice(su, true);
    sys := EntersUnasked(su, sys, true);
    sys := GoLead(su, sys, su.proposal(1, 1), true);
    var p, q := PreparePkt(Own(1, 1, 1, su.proposal(1, 1))), SignPkt(Vote(1, 1, su.proposal(1, 1)));
    assert sys[1].out == [p, q];
    assert q in sys[1].out;
  }

  /** The entry itself, with what is counted at it. */
  lemma LastStep(su: Setup, sys: System, s: Node, m: Msg, m': Msg) returns (run: seq<System>, e: Event)
    requires OfFour(su) && Reached(su, sys, true) && |sys| == 4 && su.Correct(0)
    requires Wanting(s, 0) && ForViewOne(m) && ForViewOne(m') && m.idx != 0 && m'.idx != 0 && m.idx != m'.idx
    requires sys[0] == StoreRequest(s, m) && Authentic(su, sys, ViewChangePkt(m'))
    ensures |run| > 1 && Run(su, run) && run[|run| - 2] == sys && Enters(run, |run| - 2, 0)
    ensures Step(su, sys, run[|run| - 1], 0, e) && CountedRequests(sys[0], e) == map[m.idx := m, m'.idx := m']
  {
    var order := SomeOrder(StoreRequest(sys[0], m').viewChanges);
    SecondRequest(s, 0, m, m', order);
    e := RecvViewChange(m', true, order);
    run :| Walk(su, run, true) && run[|run| - 1] == sys;
    var sys' := Extend(su, run, 0, e, true);
    run := run + [sys'];
    WalkIsRun(su, run);
  }

  /** In every run, the requests counted at a correct node's view entry were sent as requests. */
  ghost predicate AlwaysAsked(su: Setup) {
    forall run, t: nat, i: nat, e ::
      (Run(su, run) && su.Correct(i) && Enters(run, t, i) && Step(su, run[t], run[t + 1], i, e)) ==>
        RequestsCast(su, run[t], run[t][i], e)
  }

  /** That holds exactly if signatures are bound. */
  lemma EntriesAskedIffBound(su: Setup)
    requires su.Valid() && OfFour(su)
    ensures AlwaysAsked(su) <==> su.bound
  {
    if su.bound {
      forall run, t: nat, i: nat, e |
        Run(su, run) && su.Correct(i) && Enters(run, t, i) && Step(su, run[t], run[t + 1], i, e)
        ensures RequestsCast(su, run[t], run[t][i], e)
      {
        RunInv(su, run, t);
        ViewEntryBacked(su, run[t], run[t][i], e);
      }
    } else {
      var run, t, e := VoteCountedAsRequest(su);
      assert !RequestsCast(su, run[t], run[t][0], e);
    }
  }

  // ----- A head that is lowered -----

  /**
   Why heads are to be kept: a block below the head is reported to node 0, then the head again, and it enters view 1
   on a request that node 2 made at the lower height. Signatures may be bound.
   */
  lemma LoweredHeadCountsOldRequest(su: Setup, hash: Hash) returns (run: seq<System>, t: nat, e: Event)
    requires OfFour(su)
    ensures Run(su, run) && Enters(run, t, 0) && Step(su, run[t], run[t + 1], 0, e) && run[t][0].highest == 1
    ensures 2 in CountedRequests(run[t][0], e) && CountedRequests(run[t][0], e)[2].height == 0
  {
    var sys := InitReached(su, true);
    sys := GoStart(su, sys, 2, true);
    sys := GoTimeout(su, sys, 2, true);
    sys := AsksAtOne(su, sys, hash);
    sys := GoHeadLowered(su, sys, hash);
    run, t, e := EntersAtOne(su, sys, hash);
  }

  function AtOne(hash: Hash): Msg { Own(1, 1, 1, hash) }

  /** Node 1 gives view 0 up at head 1. */
  lemma AsksAtOne(su: Setup, sys: System, hash: Hash) returns (sys': System)
    requires OfFour(su) && Reached(su, sys, true) && |sys| == 4 && sys[1] == Initial(1)
    ensures Reached(su, sys', true) && |sys'| == 4 && sys' == sys[1 := sys'[1]]
    ensures ViewChangePkt(AtOne(hash)) in sys'[1].out
  {
    var s1 := Initial(1).(highest := 1, highestHash := hash, consensus := 2);
    assert Report(Initial(1), 1, hash) == s1;
    assert Timeout(Four(), s1).out == [ViewChangePkt(AtOne(hash))];
    sys' := GoReport(su, sys, 1, 1, hash);
    sys' := Go(su, sys', 1, ViewTimeout, true);
  }

  /** Node 0 with wanted view 1, head lowered from 1 to 0, and what it has stored. */
  function Lowered(vcs: Requests): Node {
    Initial(0).(consensus := 2, leaderFailed := true, toView := 1, viewChanges := vcs, out := [ViewChangePkt(Ask(0))])
  }

  lemma GoHeadLowered(su: Setup, sys: System, hash: Hash) returns (sys': System)
    requires OfFour(su) && Reached(su, sys, true) && |sys| == 4 && sys[0] == Initial(0)
    requires ViewChangePkt(Ask(2)) in sys[2].out
    ensures Reached(su, sys', true)
    ensures sys' == sys[0 := Lowered(map[1 := map[2 := Ask(2)]]).(highest := 1, highestHash := hash)]
  {
    HeadLowered(hash);
    sys' := GoReport(su, sys, 0, 1, hash);
    sys' := GoReport(su, sys', 0, 0, 0);
    sys' := GoLoweredTimeout(su, sys');
    sys' := GoHeadRaised(su, sys', hash);
  }

  lemma GoLoweredTimeout(su: Setup, sys: System) returns (sys': System)
    requires OfFour(su) && Reached(su, sys, true) && |sys| == 4 && sys[0] == Initial(0).(consensus := 2)
    ensures Reached(su, sys', true) && sys' == sys[0 := Lowered(map[])]
  {
    LoweredTimesOut();
    sys' := Go(su, sys, 0, ViewTimeout, true);
  }

  lemma LoweredTimesOut()
    ensures Timeout(Four(), Initial(0).(consensus := 2)) == Lowered(map[])
  {
  }

  lemma GoHeadRaised(su: Setup, sys: System, hash: Hash) returns (sys': System)
    requires OfFour(su) && Reached(su, sys, true) && |sys| == 4 && sys[0] == Lowered(map[])
    requires ViewChangePkt(Ask(2)) in sys[2].out
    ensures Reached(su, sys', true)
    ensures sys' == sys[0 := Lowered(map[1 := map[2 := Ask(2)]]).(highest := 1, highestHash := hash)]
  {
    HeadRaised(hash);
    SentIsAuthentic(su, sys, ViewChangePkt(Ask(2)));
    sys' := Go(su, sys, 0, RecvViewChange(Ask(2), true, [(1, 2)]), true);
    sys' := GoReport(su, sys', 0, 1, hash);
  }

  lemma GoReport(su: Setup, sys: System, i: nat, number: nat, hash: Hash) returns (sys': System)
    requires OfFour(su) && Reached(su, sys, true) && |sys| == 4 && su.Correct(i)
    ensures Reached(su, sys', true) && |sys'| == 4 && sys' == sys[i := Report(sys[i], number, hash)]
  {
    sys' := Go(su, sys, i, BlockReported(number, hash), true);
  }

  lemma HeadLowered(hash: Hash)
    ensures var s1 := Initial(0).(highest := 1, highestHash := hash, consensus := 2);
            && Report(Initial(0), 1, hash) == s1
            && Report(s1, 0, 0) == Initial(0).(consensus := 2)
  {
  }

  lemma HeadRaised(hash: Hash)
    ensures var s2, vcs := Lowered(map[]), map[1 := map[2 := Ask(2)]];
            && Enumerates(StoreRequest(s2, Ask(2)).viewChanges, [(1, 2)])
            && HandleViewChange(Four(), s2, Ask(2), true, [(1, 2)]) == Lowered(vcs)
            && Report(Lowered(vcs), 1, hash) == Lowered(vcs).(highest := 1, highestHash := hash)
  {
    assert StoreRequest(Lowered(map[]), Ask(2)) == Lowered(map[1 := map[2 := Ask(2)]]);
  }

  lemma EntersAtOne(su: Setup, sys: System, hash: Hash) returns (run: seq<System>, t: nat, e: Event)
    requires OfFour(su) && Reached(su, sys, true) && |sys| == 4 && ViewChangePkt(AtOne(hash)) in sys[1].out
    requires sys[0] == Lowered(map[1 := map[2 := Ask(2)]]).(highest := 1, highestHash := hash)
    ensures Run(su, run) && Enters(run, t, 0) && Step(su, run[t], run[t + 1], 0, e) && run[t] == sys
    ensures 2 in CountedRequests(run[t][0], e) && CountedRequests(run[t][0], e)[2] == Ask(2)
  {
    var m := AtOne(hash);
    var order := SomeOrder(StoreRequest(sys[0], m).viewChanges);
    NewRequestEnters(sys[0], m, order);
    SentIsAuthentic(su, sys, ViewChangePkt(m));
    e := RecvViewChange(m, true, order);
    run :| Walk(su, run, true) && run[|run| - 1] == sys;
    var sys' := Extend(su, run, 0, e, true);
    t := |run| - 1;
    run := run + [sys'];
    WalkIsRun(su, run);
  }

  lemma NewRequestEnters(s: Node, m: Msg, order: seq<(nat, nat)>)
    requires s == Lowered(map[1 := map[2 := Ask(2)]]).(highest := 1, highestHash := m.hash) && m == AtOne(m.hash)
    requires Listed(StoreRequest(s, m).viewChanges, order)
    ensures HandleViewChange(Four(), s, m, true, order) == ChangeView(StoreRequest(s, m))
    ensures RequestsFor(StoreRequest(s, m).viewChanges, 1) == map[2 := Ask(2), 1 := m]
  {
    assert RequestsFor(StoreRequest(s, m).viewChanges, 1) == map[2 := Ask(2), 1 := m];
    assert |map[2 := Ask(2), 1 := m]| == 2;
  }
}
