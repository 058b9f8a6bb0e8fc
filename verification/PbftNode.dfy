/**
 The consensus node as the source keeps it: one object whose handlers update
 its fields and erase from its vote tables in loops. Every method is proved to
 do to the fields what the state transformer of module Pbft does.
 */
module PbftNode {
  import opened Wrappers
  import opened Pbft
  import PbftLaws

  class Engine {
    const idx: nat
    const env: Env
    var view: nat
    var toView: nat
    var leaderFailed: bool
    var raw: Option<Msg>
    var prepare: Option<Msg>
    var committed: Option<Msg>
    var future: Option<Msg>
    var signs: map<Hash, Votes>
    var commits: map<Hash, Votes>
    var viewChanges: Requests
    var highest: nat
    var highestHash: Hash
    var consensus: nat
    var out: seq<Packet>
    var sealed: seq<Msg>

    ghost function State(): Node
      reads this
    {
      Node(idx, view, toView, leaderFailed, raw, prepare, committed, future,
           signs, commits, viewChanges, highest, highestHash, consensus, out, sealed)
    }

    constructor (env: Env, idx: nat)
      ensures this.env == env && this.idx == idx && State() == Initial(idx)
    {
      this.env := env;
      this.idx := idx;
      view, toView, leaderFailed := 0, 0, false;
      raw, prepare, committed, future := None, None, None, None;
      signs, commits, viewChanges := map[], map[], map[];
      highest, highestHash, consensus := 0, 0, 0;
      out, sealed := [], [];
    }

    method AddSignReq(m: Msg)
      modifies this`signs
      ensures signs == AddVote(old(signs), m)
    {
      var votes := if m.hash in signs then signs[m.hash] else map[];
      signs := signs[m.hash := votes[m.sig := m]];
    }

    method AddCommitReq(m: Msg)
      modifies this`commits
      ensures commits == AddVote(old(commits), m)
    {
      var votes := if m.hash in commits then commits[m.hash] else map[];
      commits := commits[m.hash := votes[m.sig := m]];
    }

    method AddPrepareReq(p: Msg)
      modifies this
      ensures State() == AddPrepare(old(State()), p)
    {
      prepare := Some(p);
      if p.hash in signs {
        var kept := EraseOtherViews(signs[p.hash], p.view);
        signs := signs[p.hash := kept];
      }
      if p.hash in commits {
        var kept := EraseOtherViews(commits[p.hash], p.view);
        commits := commits[p.hash := kept];
      }
    }

    method BroadcastSignReq(p: Msg)
      modifies this
      ensures State() == BroadcastSign(old(State()), p)
    {
      var m := Own(idx, p.height, p.view, p.hash);
      out := out + [SignPkt(m)];
      AddSignReq(m);
    }

    method BroadcastCommitReq(p: Msg)
      modifies this
      ensures State() == BroadcastCommit(old(State()), p)
    {
      var m := Own(idx, p.height, p.view, p.hash);
      out := out + [CommitPkt(m)];
      AddCommitReq(m);
    }

    method BroadcastViewChangeReq()
      modifies this`out
      ensures State() == BroadcastViewChange(old(State()))
    {
      out := out + [ViewChangePkt(Own(idx, highest, toView, highestHash))];
    }

    method CheckAndSaveBlock()
      modifies this
      ensures State() == CheckAndSave(env, old(State()))
    {
      if prepare.Some? {
        var p := prepare.value;
        var haveSign := |VotesFor(signs, p.hash)|;
        var haveCommit := |VotesFor(commits, p.hash)|;
        if haveSign >= env.Quorum() && haveCommit == env.Quorum() {
          if p.view != view {
            return;
          }
          if p.height > highest {
            sealed := sealed + [p];
          }
        }
      }
    }

    method CheckAndCommitBlock()
      modifies this
      ensures State() == CheckAndCommit(env, old(State()))
    {
      if prepare.Some? {
        var p := prepare.value;
        if |VotesFor(signs, p.hash)| == env.Quorum() {
          if p.view != view {
            return;
          }
          committed := raw;
          BroadcastCommitReq(p);
          CheckAndSaveBlock();
        }
      }
    }

    method AcceptExecuted(height: nat, v: nat, leader: nat, executed: Hash)
      modifies this
      ensures State() == Accept(env, old(State()), height, v, leader, executed)
    {
      var p := Msg(height, v, leader, executed, Signature(idx, executed), true);
      AddPrepareReq(p);
      BroadcastSignReq(p);
      CheckAndCommitBlock();
    }

    method HandlePrepareMsg(m: Msg, self: bool, valid: bool)
      modifies this
      ensures State() == HandlePrepare(env, old(State()), m, self, valid)
      ensures out != old(out) <==> PbftLaws.Signable(env, old(State()), m, self, valid)
    {
      PbftLaws.ProposalSignedIff(env, State(), m, self, valid);
      if raw.Some? && raw.value.hash == m.hash { return; }
      if !self && m.idx == idx { return; }
      if m.height < consensus || m.view < view { return; }
      if m.height > consensus || m.view > view {
        if !(future.Some? && future.value.hash == m.hash) {
          future := Some(m);
        }
        return;
      }
      TakeProposal(m, valid);
    }

    method TakeProposal(m: Msg, valid: bool)
      modifies this
      ensures State() == TakePrepare(env, old(State()), m, valid)
    {
      raw := Some(m);
      if leaderFailed || env.n == 0 || m.idx != (view + highest) % env.n { return; }
      if committed.Some? && m.height == committed.value.height && m.hash != committed.value.hash { return; }
      if !CheckSign(env, m) || !valid { return; }
      AcceptExecuted(m.height, m.view, m.idx, env.execute(m.hash));
    }

    method HandleFutureBlock(valid: bool)
      modifies this
      ensures State() == HandleFuture(env, old(State()), valid)
    {
      if future.Some? && future.value.height == consensus && future.value.view == view {
        HandlePrepareMsg(future.value, false, valid);
        future := None;
      }
    }

    method HandleSignMsg(m: Msg)
      modifies this
      ensures State() == HandleSign(env, old(State()), m)
    {
      if m.hash in signs && m.sig in signs[m.hash] { return; }
      if m.idx == idx { return; }
      if !(prepare.Some? && prepare.value.hash == m.hash) {
        var futureMsg := m.height >= consensus || m.view > view;
        if futureMsg && CheckSign(env, m) {
          AddSignReq(m);
        }
        return;
      }
      if prepare.value.view != m.view { return; }
      if !CheckSign(env, m) { return; }
      AddSignReq(m);
      CheckAndCommitBlock();
    }

    method HandleCommitMsg(m: Msg)
      modifies this
      ensures State() == HandleCommit(env, old(State()), m)
    {
      if m.hash in commits && m.sig in commits[m.hash] { return; }
      if m.idx == idx { return; }
      if !(prepare.Some? && prepare.value.hash == m.hash) {
        var futureMsg := m.height >= consensus || m.view > view;
        if futureMsg && CheckSign(env, m) {
          AddCommitReq(m);
        }
        return;
      }
      if prepare.value.view != m.view { return; }
      if !CheckSign(env, m) { return; }
      AddCommitReq(m);
      CheckAndSaveBlock();
    }

    method ChangeViewIfAgreed()
      modifies this
      ensures State() == CheckAndChangeView(env, old(State()))
    {
      var count := |RequestsFor(viewChanges, toView)|;
      if count >= env.Quorum() - 1 {
        EnterView();
      }
    }

    method EnterView()
      modifies this`leaderFailed, this`view, this`raw, this`prepare, this`signs, this`commits, this`viewChanges
      ensures raw == None && prepare == None && signs == map[] && commits == map[] && !leaderFailed
      ensures viewChanges == AboveView(old(viewChanges), toView) && view == toView
    {
      leaderFailed := false;
      view := toView;
      raw, prepare := None, None;
      signs, commits := map[], map[];
      var kept := EraseUpTo(viewChanges, view);
      viewChanges := kept;
    }

    /** The node gives its leader up and forgets stale requests for the view it now wants. */
    method NextView()
      modifies this`leaderFailed, this`toView, this`viewChanges
      ensures State() == BeforeTimeout(old(State()))
    {
      leaderFailed := true;
      toView := toView + 1;
      if toView in viewChanges {
        var kept := EraseStale(viewChanges[toView], highest, highestHash);
        viewChanges := viewChanges[toView := kept];
      }
    }

    method ViewTimedOut()
      modifies this
      ensures State() == Timeout(env, old(State()))
    {
      NextView();
      BroadcastViewChangeReq();
      ChangeViewIfAgreed();
    }

    method HandleViewChangeMsg(m: Msg, known: bool, order: seq<(nat, nat)>)
      requires Listed(StoreRequest(State(), m).viewChanges, order)
      modifies this
      ensures State() == HandleViewChange(env, old(State()), m, known, order)
    {
      if m.view in viewChanges && m.idx in viewChanges[m.view] { return; }
      if m.idx == idx { return; }
      if m.view + 1 < toView {
        BroadcastViewChangeReq();
      }
      StoreViewChangeReq(m, known, order);
    }

    method StoreViewChangeReq(m: Msg, known: bool, order: seq<(nat, nat)>)
      requires Listed(StoreRequest(State(), m).viewChanges, order)
      modifies this
      ensures State() == TakeRequest(env, old(State()), m, known, order)
    {
      if m.height < highest || m.view <= view { return; }
      if m.height == highest && m.hash != highestHash && !known { return; }
      if !CheckSign(env, m) { return; }
      var reqs := if m.view in viewChanges then viewChanges[m.view] else map[];
      viewChanges := viewChanges[m.view := reqs[m.idx := m]];
      if m.view == toView {
        ChangeViewIfAgreed();
      } else {
        FastStart(order);
      }
    }

    /** The fast start of a view change: a loop over the stored requests, in the order of the hash tables. */
    method FastStart(order: seq<(nat, nat)>)
      requires Listed(viewChanges, order)
      modifies this`toView
      ensures State() == FastViewChange(env, old(State()), order)
    {
      var views: map<nat, nat> := map[];
      var minView: Option<nat> := None;
      var minHeight: Option<nat> := None;
      var k := 0;
      while k < |order|
        invariant k <= |order|
        invariant toView == old(toView)
        invariant Listed(viewChanges, order[..k])
        invariant Scan(views, minView, minHeight) == ScanAll(State(), order[..k])
      {
        assert order[k] in order && order[..k + 1][..k] == order[..k];
        var (v, i) := order[k];
        var m := viewChanges[v][i];
        if v > toView && m.height >= highest && (i !in views || v > views[i]) {
          views := views[i := v];
          if minView.None? || minView.value > v { minView := Some(v); }
          if minHeight.None? || minHeight.value > m.height { minHeight := Some(m.height); }
        }
        k := k + 1;
      }
      assert order[..k] == order;
      var count := |views|;
      var waiting := minHeight == Some(consensus)
        && committed.Some? && committed.value.height == consensus;
      if count > env.MaxFaulty() && !waiting && minView.Some? && minView.value > 0 {
        toView := minView.value - 1;
      }
    }

    method ReportBlock(number: nat, hash: Hash)
      modifies this
      ensures State() == Report(old(State()), number, hash)
    {
      AdvanceTo(number, hash);
      DelCacheOf(hash);
    }

    method AdvanceTo(number: nat, hash: Hash)
      modifies this
      ensures State() == Advance(old(State()), number, hash)
    {
      highest, highestHash := number, hash;
      if highest >= consensus {
        StartHeight();
      }
    }

    method StartHeight()
      modifies this`view, this`toView, this`leaderFailed, this`consensus, this`viewChanges
      ensures view == 0 && toView == 0 && !leaderFailed && consensus == highest + 1
      ensures viewChanges == DelViewChange(old(viewChanges), highest, highestHash)
    {
      view, toView, leaderFailed := 0, 0, false;
      consensus := highest + 1;
      DelViewChangeReqs();
    }

    method DelViewChangeReqs()
      modifies this`viewChanges
      ensures viewChanges == DelViewChange(old(viewChanges), highest, highestHash)
    {
      var stored := viewChanges;
      var todo := viewChanges.Keys;
      while todo != {}
        invariant todo <= stored.Keys
        invariant viewChanges ==
          map v | v in stored && (v in todo || CurrentOnly(stored[v], highest, highestHash) != map[])
                :: if v in todo then stored[v] else CurrentOnly(stored[v], highest, highestHash)
        decreases todo
      {
        var v :| v in todo;
        var kept := EraseStale(stored[v], highest, highestHash);
        if kept == map[] {
          viewChanges := viewChanges - {v};
        } else {
          viewChanges := viewChanges[v := kept];
        }
        todo := todo - {v};
      }
    }

    method DelCacheOf(hash: Hash)
      modifies this
      ensures State() == DelCache(old(State()), hash)
    {
      if hash in signs {
        signs := signs - {hash};
      }
      if hash in commits {
        commits := commits - {hash};
      }
      if prepare.Some? && prepare.value.hash == hash {
        prepare := None;
      }
      assert signs == Forget(old(signs), hash) && commits == Forget(old(commits), hash);
    }

    method DropOldVotes()
      modifies this
      ensures State() == CollectGarbage(old(State()))
    {
      signs := EraseBelow(signs, highest);
      commits := EraseBelow(commits, highest);
    }

    method ShouldSealBlock(valid: bool) returns (yes: bool)
      modifies this
      ensures State() == ShouldSeal(env, old(State()), valid)
      ensures yes <==> !old(leaderFailed) && env.n > 0 && idx == (old(view) + old(highest)) % env.n
                       && !(old(committed).Some? && old(committed).value.height == old(consensus))
    {
      if leaderFailed || env.n == 0 || idx != (view + highest) % env.n { return false; }
      if committed.Some? && consensus == committed.value.height {
        if !(raw.Some? && raw.value.height == consensus) {
          var m := Own(idx, committed.value.height, view, committed.value.hash);
          out := out + [PreparePkt(m)];
          HandlePrepareMsg(m, true, valid);
        }
        return false;
      }
      return true;
    }

    /** generateSeal and generateCommit for a block of the height in progress. */
    method ProposeBlock(hash: Hash)
      modifies this
      ensures State() == Propose(env, old(State()), hash)
    {
      var m := Own(idx, consensus, view, hash);
      out := out + [PreparePkt(m)];
      raw := Some(m);
      AcceptExecuted(consensus, view, idx, env.execute(hash));
    }
  }

  method EraseOtherViews(votes: Votes, view: nat) returns (kept: Votes)
    ensures kept == OnlyView(votes, view)
  {
    kept := votes;
    var todo := votes.Keys;
    while todo != {}
      invariant todo <= votes.Keys
      invariant kept == map k | k in votes && (k in todo || votes[k].view == view) :: votes[k]
      decreases todo
    {
      var k :| k in todo;
      if votes[k].view != view {
        kept := kept - {k};
      }
      todo := todo - {k};
    }
  }

  method EraseUpTo(stored: Requests, view: nat) returns (kept: Requests)
    ensures kept == AboveView(stored, view)
  {
    kept := stored;
    var todo := stored.Keys;
    while todo != {}
      invariant todo <= stored.Keys
      invariant kept == map v | v in stored && (v in todo || v > view) :: stored[v]
      decreases todo
    {
      var v :| v in todo;
      if v <= view {
        kept := kept - {v};
      }
      todo := todo - {v};
    }
  }

  method EraseStale(reqs: map<nat, Msg>, highest: nat, highestHash: Hash) returns (kept: map<nat, Msg>)
    ensures kept == CurrentOnly(reqs, highest, highestHash)
  {
    kept := reqs;
    var todo := reqs.Keys;
    while todo != {}
      invariant todo <= reqs.Keys
      invariant kept == map i | i in reqs && (i in todo || Current(reqs[i], highest, highestHash)) :: reqs[i]
      decreases todo
    {
      var i :| i in todo;
      if reqs[i].height < highest {
        kept := kept - {i};
      } else if reqs[i].height == highest && reqs[i].hash != highestHash {
        kept := kept - {i};
      }
      todo := todo - {i};
    }
  }

  method EraseOld(votes: Votes, highest: nat) returns (kept: Votes)
    ensures kept == Recent(votes, highest)
  {
    kept := votes;
    var todo := votes.Keys;
    while todo != {}
      invariant todo <= votes.Keys
      invariant kept == map k | k in votes && (k in todo || votes[k].height >= highest) :: votes[k]
      decreases todo
    {
      var k :| k in todo;
      if votes[k].height < highest {
        kept := kept - {k};
      }
      todo := todo - {k};
    }
  }

  method EraseBelow(cache: map<Hash, Votes>, highest: nat) returns (kept: map<Hash, Votes>)
    ensures kept == DropBelow(cache, highest)
  {
    kept := cache;
    var todo := cache.Keys;
    while todo != {}
      invariant todo <= cache.Keys
      invariant kept == map h | h in cache && (h in todo || Recent(cache[h], highest) != map[])
                              :: if h in todo then cache[h] else Recent(cache[h], highest)
      decreases todo
    {
      var h :| h in todo;
      var votes := EraseOld(cache[h], highest);
      if votes == map[] {
        kept := kept - {h};
      } else {
        kept := kept[h := votes];
      }
      todo := todo - {h};
    }
  }
}
