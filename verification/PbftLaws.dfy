/**
 What the message handlers of one consensus node do, told from outside: when exactly a proposal is signed, a vote
 filed, a commit vote sent, a block sealed, a request stored and a view entered, and who leads.
 */
module PbftLaws {
  import opened Wrappers
  import opened Pbft
  import opened PbftVotes
  import opened PbftViews

  // ----- Proposals -----

  /** The lock, if it is on this height, is on this proposal. */
  predicate LockAgrees(s: Node, m: Msg) {
    s.committed.Some? && s.committed.value.height == m.height ==> s.committed.value.hash == m.hash
  }

  predicate Verifies(env: Env, m: Msg) {
    m.idx < env.n && m.sig.key == m.idx && m.sig.hash == m.hash && m.fieldsSigned
  }

  /** A proposal of this height and view that has not been seen, signed by the node whose turn it is, and acceptable. */
  predicate Signable(env: Env, s: Node, m: Msg, self: bool, valid: bool) {
    && m.height == s.consensus && m.view == s.view && (s.raw.Some? ==> s.raw.value.hash != m.hash)
    && (self || m.idx != s.idx) && Verifies(env, m) && m.idx == (s.view + s.highest) % env.n
    && !s.leaderFailed && LockAgrees(s, m) && valid
  }

  /** `s'` has sent something, and first of all its sign vote for what executing the proposal yields. */
  predicate SignsFirst(env: Env, s: Node, s': Node, m: Msg) {
    && |s'.out| > |s.out| && s'.out[..|s.out|] == s.out
    && s'.out[|s.out|] == SignPkt(Own(s.idx, m.height, m.view, env.execute(m.hash)))
  }

  /** A proposal is signed if and only if it is signable; otherwise nothing at all is sent. */
  lemma ProposalSignedIff(env: Env, s: Node, m: Msg, self: bool, valid: bool)
    ensures var s' := HandlePrepare(env, s, m, self, valid);
            if Signable(env, s, m, self, valid) then SignsFirst(env, s, s', m) && s'.raw == Some(m) else s'.out == s.out
  {
    if Signable(env, s, m, self, valid) {
      var s1 := s.(raw := Some(m));
      assert HandlePrepare(env, s, m, self, valid) == Accept(env, s1, m.height, m.view, m.idx, env.execute(m.hash));
      AcceptSigns(env, s1, m.height, m.view, m.idx, env.execute(m.hash));
    }
  }

  lemma AcceptSigns(env: Env, s: Node, height: nat, view: nat, leader: nat, x: Hash)
    ensures var s' := Accept(env, s, height, view, leader, x);
            && |s'.out| > |s.out| && s'.out[..|s.out|] == s.out
            && s'.out[|s.out|] == SignPkt(Own(s.idx, height, view, x))
            && s'.raw == s.raw
  {
  }

  /**
   Where a proposal that is not handled is kept: the raw slot if it is
   of this height and view, else the future slot.
   */
  lemma ProposalKept(env: Env, s: Node, m: Msg, self: bool, valid: bool)
    requires (s.raw.Some? ==> s.raw.value.hash != m.hash) && (self || m.idx != s.idx)
    requires m.height >= s.consensus && m.view >= s.view
    ensures var s' := HandlePrepare(env, s, m, self, valid);
            if m.height == s.consensus && m.view == s.view then s'.raw == Some(m) && s'.future == s.future
            else s'.raw == s.raw && s'.future.Some? && s'.future.value.hash == m.hash
                 && (s.future.None? || s.future.value.hash != m.hash ==> s'.future.value == m)
  {
  }

  /** A waiting proposal is signed when its height and view have come, if and only if it is then signable. */
  lemma WaitingSignedIff(env: Env, s: Node, valid: bool)
    requires s.future.Some?
    ensures var m, s' := s.future.value, HandleFuture(env, s, valid);
            && (if Signable(env, s, m, false, valid) then SignsFirst(env, s, s', m) && s'.raw == Some(m)
                else s'.out == s.out)
            && s'.future == if m.height == s.consensus && m.view == s.view then None else s.future
  {
    ProposalSignedIff(env, s, s.future.value, false, valid);
  }

  /** It is this node's turn to lead, by its own count. */
  predicate MyTurn(env: Env, s: Node) {
    !s.leaderFailed && env.n > 0 && s.idx == (s.view + s.highest) % env.n
  }

  predicate LockedHere(s: Node) { s.committed.Some? && s.committed.value.height == s.consensus }

  /**
   Only a node whose turn it is may seal, and only without a lock;
   with one it puts the locked proposal out again, once.
   */
  lemma SealCheckMeans(env: Env, s: Node, valid: bool)
    ensures MaySeal(env, s) <==> MyTurn(env, s) && !LockedHere(s)
    ensures var s' := ShouldSeal(env, s, valid);
            if MyTurn(env, s) && LockedHere(s) && !(s.raw.Some? && s.raw.value.height == s.consensus) then
              var m := Own(s.idx, s.consensus, s.view, s.committed.value.hash);
              var s1 := s.(out := s.out + [PreparePkt(m)]);
              if Signable(env, s1, m, true, valid) then SignsFirst(env, s1, s', m) else s'.out == s1.out
            else s' == s
  {
    if ReProposes(env, s) {
      var m := Own(s.idx, s.consensus, s.view, s.committed.value.hash);
      ProposalSignedIff(env, s.(out := s.out + [PreparePkt(m)]), m, true, valid);
    }
  }

  /** A block of the node's own goes out as a proposal of its height and view and is signed at once. */
  lemma ProposeMeans(env: Env, s: Node, hash: Hash)
    ensures var m := Own(s.idx, s.consensus, s.view, hash);
            && SignsFirst(env, s.(out := s.out + [PreparePkt(m)]), Propose(env, s, hash), m)
            && Propose(env, s, hash).raw == Some(m)
  {
    var m := Own(s.idx, s.consensus, s.view, hash);
    AcceptSigns(env, s.(out := s.out + [PreparePkt(m)], raw := Some(m)), s.consensus, s.view, s.idx, env.execute(hash));
  }

  // ----- Leaders -----

  /** With this head the node would sign some proposal of node `i`. */
  ghost predicate SignsFor(env: Env, s: Node, head: nat, i: nat) {
    exists m: Msg, valid :: m.idx == i && HandlePrepare(env, s.(highest := head), m, true, valid).out != s.out
  }

  /** With this head node `i` would be told to seal a block of its own. */
  predicate SealsAs(env: Env, s: Node, head: nat, i: nat) { MaySeal(env, s.(idx := i, highest := head)) }

  /** A proposal for this height and view that the raw slot does not know and the lock allows. */
  function Acceptable(s: Node, i: nat): Msg {
    var h := if s.committed.Some? && s.committed.value.height == s.consensus then s.committed.value.hash
             else if s.raw.Some? then s.raw.value.hash + 1 else 0;
    Own(i, s.consensus, s.view, h)
  }

  lemma SignsForIff(env: Env, s: Node, head: nat, i: nat)
    requires env.n > 0 && s.raw == None
    ensures SignsFor(env, s, head, i) <==> !s.leaderFailed && i == (s.view + head) % env.n
  {
    var s1 := s.(highest := head);
    if !s.leaderFailed && i == (s.view + head) % env.n {
      var m := Acceptable(s, i);
      ProposalSignedIff(env, s1, m, true, true);
    }
    forall m: Msg, valid | m.idx == i && HandlePrepare(env, s1, m, true, valid).out != s.out
      ensures !s.leaderFailed && i == (s.view + head) % env.n
    {
      ProposalSignedIff(env, s1, m, true, valid);
    }
  }

  lemma SealsAsIff(env: Env, s: Node, head: nat, i: nat)
    requires env.n > 0
    ensures SealsAs(env, s, head, i) <==>
              !s.leaderFailed && i == (s.view + head) % env.n
              && !(s.committed.Some? && s.committed.value.height == s.consensus)
  {
  }

  lemma ModAdd(a: nat, j: nat, n: nat)
    requires j < n
    ensures (a + j) % n == if a % n + j < n then a % n + j else a % n + j - n
  {
    var q, r := a / n, a % n;
    if r + j < n { ModUnique(a + j, q, r + j, n); } else { ModUnique(a + j, q + 1, r + j - n, n); }
  }

  lemma NextDiffers(a: nat, b: nat, n: nat)
    requires n > 1 && b == a + 1
    ensures a % n != b % n
  {
    ModAdd(a, 1, n);
  }

  lemma ModUnique(x: nat, q: nat, r: nat, n: nat)
    requires r < n && x == n * q + r
    ensures x % n == r
  {
    MulLe(n, x / n + 1, q);
    MulLe(n, q + 1, x / n);
  }

  lemma MulLe(n: nat, a: nat, b: nat)
    ensures a <= b ==> n * a <= n * b
  {
  }

  /** In one view two consecutive heads have different leaders, for signing proposals and for sealing. */
  lemma LeaderMoves(env: Env, s: Node, head: nat, next: nat, i: nat)
    requires env.n > 1 && s.raw == None && next == head + 1
    ensures !(SignsFor(env, s, head, i) && SignsFor(env, s, next, i))
    ensures !(SealsAs(env, s, head, i) && SealsAs(env, s, next, i))
  {
    NextDiffers(s.view + head, s.view + next, env.n);
    SealerMoves(env, s, head, next, i);
    SignsForIff(env, s, head, i);
    SignsForIff(env, s, next, i);
  }

  lemma SealerMoves(env: Env, s: Node, head: nat, next: nat, i: nat)
    requires env.n > 1 && (s.view + head) % env.n != (s.view + next) % env.n
    ensures !(SealsAs(env, s, head, i) && SealsAs(env, s, next, i))
  {
    SealsAsIff(env, s, head, i);
    SealsAsIff(env, s, next, i);
  }

  /** In one view each node leads at exactly one of any `n` consecutive heads. */
  lemma EachLeadsOnce(env: Env, s: Node, head: nat, i: nat) returns (lead: nat)
    requires i < env.n && !s.leaderFailed && s.raw == None
    ensures head <= lead < head + env.n
    ensures forall h: nat :: head <= h < head + env.n ==> (SignsFor(env, s, h, i) <==> h == lead)
    ensures s.committed == None ==> forall h: nat :: head <= h < head + env.n ==> (SealsAs(env, s, h, i) <==> h == lead)
  {
    var r := (s.view + head) % env.n;
    lead := head + if i >= r then i - r else i + env.n - r;
    forall h: nat | head <= h < head + env.n
      ensures SignsFor(env, s, h, i) <==> h == lead
      ensures s.committed == None ==> (SealsAs(env, s, h, i) <==> h == lead)
    {
      TurnAt(env, s, head, i, h);
    }
  }

  lemma TurnAt(env: Env, s: Node, head: nat, i: nat, h: nat)
    requires i < env.n && !s.leaderFailed && s.raw == None && head <= h < head + env.n
    ensures var r := (s.view + head) % env.n;
            var lead := head + if i >= r then i - r else i + env.n - r;
            && (SignsFor(env, s, h, i) <==> h == lead)
            && (s.committed == None ==> (SealsAs(env, s, h, i) <==> h == lead))
  {
    SignsForIff(env, s, h, i);
    SealsAsIff(env, s, h, i);
    ModAdd(s.view + head, h - head, env.n);
    assert s.view + head + (h - head) == s.view + h;
  }

  // ----- Votes -----

  predicate Has(cache: map<Hash, Votes>, h: Hash, k: Signature) { h in cache && k in cache[h] }

  /** The vote is new, another node's, verifies, and is for the proposal in hand or for what may still come. */
  predicate Fileable(env: Env, s: Node, cache: map<Hash, Votes>, m: Msg) {
    && !Has(cache, m.hash, m.sig) && m.idx != s.idx && Verifies(env, m)
    && if s.prepare.Some? && s.prepare.value.hash == m.hash then m.view == s.prepare.value.view
       else m.height >= s.consensus || m.view > s.view
  }

  /** `after` is `before` with `m` filed under its hash and signature if `filed`, and otherwise the same. */
  ghost predicate FiledIf(before: map<Hash, Votes>, after: map<Hash, Votes>, m: Msg, filed: bool) {
    && (forall h, k :: Has(after, h, k) <==> Has(before, h, k) || (filed && h == m.hash && k == m.sig))
    && (forall h, k :: Has(before, h, k) ==> after[h][k] == before[h][k])
    && (filed ==> Has(after, m.hash, m.sig) && after[m.hash][m.sig] == m)
  }

  /** With `votes` for its proposal the node has exactly a quorum, in the view it is in. */
  predicate Completes(env: Env, s: Node, votes: map<Hash, Votes>, m: Msg) {
    && s.prepare.Some? && s.prepare.value.hash == m.hash && s.prepare.value.view == s.view
    && m.hash in votes && |votes[m.hash]| == env.Quorum()
  }

  /**
   A sign vote is filed if and only if it is fileable, and the commit
   vote goes out, with the lock, exactly when it completes a quorum.
   */
  lemma SignVoteIff(env: Env, s: Node, m: Msg)
    ensures var s', filed := HandleSign(env, s, m), Fileable(env, s, s.signs, m);
            && FiledIf(s.signs, s'.signs, m, filed)
            && (if filed && Completes(env, s, s'.signs, m)
                then s'.out == s.out + [CommitPkt(Own(s.idx, s.prepare.value.height, s.view, m.hash))]
                     && s'.committed == s.raw && SealsNow(env, s, s', m)
                else s'.out == s.out && s'.committed == s.committed && s'.commits == s.commits && s'.sealed == s.sealed)
  {
    var s1 := s.(signs := AddVote(s.signs, m));
    assert Fileable(env, s, s.signs, m) ==> FiledIf(s.signs, s1.signs, m, true);
    if Fileable(env, s, s.signs, m) && Prepared(s, m.hash) {
      CompletesMeans(env, s1, m);
    }
  }

  lemma CompletesMeans(env: Env, s: Node, m: Msg)
    requires s.prepare.Some? && s.prepare.value.hash == m.hash && Has(s.signs, m.hash, m.sig)
    ensures var s' := CheckAndCommit(env, s);
            && s'.signs == s.signs
            && (if Completes(env, s, s.signs, m)
                then s'.out == s.out + [CommitPkt(Own(s.idx, s.prepare.value.height, s.view, m.hash))]
                     && s'.committed == s.raw && SealsNow(env, s, s', m)
                else s' == s)
  {
  }

  /**
   The node's own commit vote is filed, and if that makes exactly a quorum
   for a block above the head it is sealed.
   */
  ghost predicate SealsNow(env: Env, s: Node, s': Node, m: Msg)
    requires s.prepare.Some?
  {
    var own := Own(s.idx, s.prepare.value.height, s.view, m.hash);
    && FiledOver(s.commits, s'.commits, own)
    && s'.sealed == (if |s'.commits[m.hash]| == env.Quorum() && s.prepare.value.height > s.highest
                     then s.sealed + [s.prepare.value] else s.sealed)
  }

  /** The vote takes the place of any under its hash and signature. */
  ghost predicate FiledOver(before: map<Hash, Votes>, after: map<Hash, Votes>, m: Msg) {
    && Has(after, m.hash, m.sig) && after[m.hash][m.sig] == m
    && (forall h: Hash, k :: (h, k) != (m.hash, m.sig) ==> (Has(after, h, k) <==> Has(before, h, k)))
    && forall h: Hash, k :: (h, k) != (m.hash, m.sig) && Has(before, h, k) ==> after[h][k] == before[h][k]
  }

  /**
   A commit vote is filed if and only if it is fileable, and seals exactly when it completes a quorum of a block
   above the head that has its sign votes.
   */
  lemma CommitVoteIff(env: Env, s: Node, m: Msg)
    ensures var s', filed := HandleCommit(env, s, m), Fileable(env, s, s.commits, m);
            && FiledIf(s.commits, s'.commits, m, filed)
            && s'.sealed == (if filed && Completes(env, s, s'.commits, m) && s.prepare.value.height > s.highest
                                && m.hash in s.signs && |s.signs[m.hash]| >= env.Quorum()
                             then s.sealed + [s.prepare.value] else s.sealed)
            && s' == s.(commits := s'.commits, sealed := s'.sealed)
    requires env.Quorum() > 0
  {
    assert Fileable(env, s, s.commits, m) ==> FiledIf(s.commits, AddVote(s.commits, m), m, true);
  }

  /** Taking a proposal in hand keeps the votes of its view for it and all votes for others. */
  lemma PrepareKeepsVotes(s: Node, p: Msg)
    ensures var s' := AddPrepare(s, p);
            && (forall h, k :: Has(s'.signs, h, k) <==>
                  Has(s.signs, h, k) && (h == p.hash ==> s.signs[h][k].view == p.view))
            && (forall h, k :: Has(s'.commits, h, k) <==>
                  Has(s.commits, h, k) && (h == p.hash ==> s.commits[h][k].view == p.view))
            && (forall h, k :: Has(s'.signs, h, k) ==> s'.signs[h][k] == s.signs[h][k])
            && (forall h, k :: Has(s'.commits, h, k) ==> s'.commits[h][k] == s.commits[h][k])
            && s'.prepare == Some(p)
  {
  }

  /** Garbage collection keeps exactly the votes made at or above the head. */
  lemma GarbageMeans(s: Node)
    ensures var s' := CollectGarbage(s);
            && (forall h, k :: Has(s'.signs, h, k) <==> Has(s.signs, h, k) && s.signs[h][k].height >= s.highest)
            && (forall h, k :: Has(s'.commits, h, k) <==> Has(s.commits, h, k) && s.commits[h][k].height >= s.highest)
            && (forall h, k :: Has(s'.signs, h, k) ==> s'.signs[h][k] == s.signs[h][k])
            && (forall h, k :: Has(s'.commits, h, k) ==> s'.commits[h][k] == s.commits[h][k])
            && s' == s.(signs := s'.signs, commits := s'.commits)
  {
    forall h, k | Has(s.signs, h, k) && s.signs[h][k].height >= s.highest ensures Has(CollectGarbage(s).signs, h, k) {
      assert k in Recent(s.signs[h], s.highest);
    }
    forall h, k | Has(s.commits, h, k) && s.commits[h][k].height >= s.highest
      ensures Has(CollectGarbage(s).commits, h, k)
    {
      assert k in Recent(s.commits[h], s.highest);
    }
  }

  // ----- Blocks -----

  /** The request was made on the block that is now the head, or above it. */
  predicate StillCounts(m: Msg, number: nat, hash: Hash) {
    m.height >= number && (m.height == number ==> m.hash == hash)
  }

  predicate Stored(vcs: Requests, v: nat, i: nat) { v in vcs && i in vcs[v] }

  /**
   A reported block becomes the head. If it ends the height in progress the next one begins, in view 0, with the
   requests that still count.
   */
  lemma ReportMeans(s: Node, number: nat, hash: Hash)
    ensures var s' := Report(s, number, hash);
            && s'.highest == number && s'.highestHash == hash
            && s'.out == s.out && s'.sealed == s.sealed && s'.committed == s.committed && s'.raw == s.raw
            && (if number >= s.consensus then
                  s'.consensus == number + 1 && s'.view == s'.toView == 0 && !s'.leaderFailed
                else
                  s'.consensus == s.consensus && s'.view == s.view && s'.toView == s.toView
                  && s'.leaderFailed == s.leaderFailed)
            && (forall v: nat, i: nat :: Stored(s'.viewChanges, v, i) <==>
                  Stored(s.viewChanges, v, i)
                  && (number >= s.consensus ==> StillCounts(s.viewChanges[v][i], number, hash)))
            && (forall v: nat, i: nat :: Stored(s'.viewChanges, v, i) ==> s'.viewChanges[v][i] == s.viewChanges[v][i])
  {
    var s' := Report(s, number, hash);
    forall v, i | Stored(s.viewChanges, v, i) && StillCounts(s.viewChanges[v][i], number, hash)
      ensures Stored(s'.viewChanges, v, i)
    {
      assert i in CurrentOnly(s.viewChanges[v], number, hash);
    }
  }

  /** Exactly the votes and the proposal of the reported block are forgotten. */
  lemma ReportForgets(s: Node, number: nat, hash: Hash)
    ensures var s' := Report(s, number, hash);
            && (forall h, k :: Has(s'.signs, h, k) <==> Has(s.signs, h, k) && h != hash)
            && (forall h, k :: Has(s'.commits, h, k) <==> Has(s.commits, h, k) && h != hash)
            && (forall h, k :: Has(s'.signs, h, k) ==> s'.signs[h][k] == s.signs[h][k])
            && (forall h, k :: Has(s'.commits, h, k) ==> s'.commits[h][k] == s.commits[h][k])
            && s'.prepare == if s.prepare.Some? && s.prepare.value.hash == hash then None else s.prepare
  {
  }

  // ----- View changes -----

  /** What entering view `v` leaves: nothing in hand, no votes, and the requests for later views. */
  ghost predicate Entered(s: Node, s': Node, v: nat) {
    && s'.view == s'.toView == v && !s'.leaderFailed && s'.raw == s'.prepare == None
    && s'.signs == s'.commits == map[] && s'.committed == s.committed
    && (forall w: nat, i: nat :: Stored(s'.viewChanges, w, i) <==> Stored(s.viewChanges, w, i) && w > v)
    && forall w: nat, i: nat :: Stored(s'.viewChanges, w, i) ==> s'.viewChanges[w][i] == s.viewChanges[w][i]
  }

  lemma ChangeMeans(env: Env, s: Node)
    ensures var s' := CheckAndChangeView(env, s);
            if |RequestsFor(s.viewChanges, s.toView)| >= env.Quorum() - 1
            then Entered(s, s', s.toView) && s'.out == s.out
            else s' == s
  {
  }

  /** A timeout asks for the next view, and enters it if and only if enough requests for it still count. */
  lemma TimeoutMeans(env: Env, s: Node) returns (counted: map<nat, Msg>)
    ensures forall i :: i in counted <==>
              Stored(s.viewChanges, s.toView + 1, i)
              && StillCounts(s.viewChanges[s.toView + 1][i], s.highest, s.highestHash)
    ensures var s', v := Timeout(env, s), s.toView + 1;
            && s'.toView == v && s'.out == s.out + [ViewChangePkt(Own(s.idx, s.highest, v, s.highestHash))]
            && (if |counted| >= env.Quorum() - 1 then s'.view == v && !s'.leaderFailed && s'.prepare == None
                else s'.view == s.view && s'.leaderFailed && s'.prepare == s.prepare)
  {
    var s1 := BroadcastViewChange(BeforeTimeout(s));
    counted := RequestsFor(s1.viewChanges, s.toView + 1);
    ChangeMeans(env, s1);
  }

  /** A request of another node that has not asked for this view, above the head or on it, for a later view. */
  predicate Storable(env: Env, s: Node, m: Msg, known: bool) {
    && !Stored(s.viewChanges, m.view, m.idx) && m.idx != s.idx && m.height >= s.highest && m.view > s.view
    && (m.height == s.highest ==> m.hash == s.highestHash || known) && Verifies(env, m)
  }

  /** `vcs'` is `vcs` with the request added. */
  ghost predicate Added(vcs: Requests, vcs': Requests, m: Msg) {
    && (forall v: nat, i: nat :: Stored(vcs', v, i) <==> Stored(vcs, v, i) || (v == m.view && i == m.idx))
    && (forall v: nat, i: nat :: Stored(vcs, v, i) && (v, i) != (m.view, m.idx) ==> vcs'[v][i] == vcs[v][i])
    && Stored(vcs', m.view, m.idx) && vcs'[m.view][m.idx] == m
  }

  /** A request is stored if and only if it is storable; one for the wanted view that completes the count opens it. */
  lemma RequestStoredIff(env: Env, s: Node, m: Msg, known: bool, order: seq<(nat, nat)>)
    requires Listed(StoreRequest(s, m).viewChanges, order)
    ensures var s' := HandleViewChange(env, s, m, known, order);
            if !Storable(env, s, m, known) then
              s'.viewChanges == s.viewChanges && s'.view == s.view && s'.toView == s.toView
            else if m.view == s.toView && |RequestsFor(s.viewChanges, m.view)| + 1 >= env.Quorum() - 1 then
              s'.view == s.toView && !s'.leaderFailed && s'.prepare == None
            else
              s'.view == s.view && Added(s.viewChanges, s'.viewChanges, m)
              && (m.view == s.toView ==> s'.toView == s.toView)
  {
    var s1 := if m.view + 1 < s.toView then BroadcastViewChange(s) else s;
    if Storable(env, s, m, known) {
      var s2 := StoreRequest(s1, m);
      OneMore(s1, m);
      if m.view == s.toView {
        assert HandleViewChange(env, s, m, known, order) == CheckAndChangeView(env, s2);
        ChangeMeans(env, s2);
      } else {
        assert HandleViewChange(env, s, m, known, order) == FastViewChange(env, s2, order);
      }
    }
  }

  lemma OneMore(s: Node, m: Msg)
    requires !Stored(s.viewChanges, m.view, m.idx)
    ensures Added(s.viewChanges, StoreRequest(s, m).viewChanges, m)
    ensures |RequestsFor(StoreRequest(s, m).viewChanges, m.view)| == |RequestsFor(s.viewChanges, m.view)| + 1
  {
    var had := RequestsFor(s.viewChanges, m.view);
    KeyAdded(had, m.idx, m);
    assert RequestsFor(StoreRequest(s, m).viewChanges, m.view) == had[m.idx := m];
  }

  lemma KeyAdded<T>(had: map<nat, T>, i: nat, x: T)
    requires i !in had
    ensures |had[i := x]| == |had| + 1
  {
    assert had[i := x].Keys == had.Keys + {i};
  }

  /** A sender that lags behind is told what view this node wants, and nobody else is told anything. */
  lemma LaggardAnswered(env: Env, s: Node, m: Msg, known: bool, order: seq<(nat, nat)>)
    requires Listed(StoreRequest(s, m).viewChanges, order)
    ensures var s' := HandleViewChange(env, s, m, known, order);
            s'.out == if !Stored(s.viewChanges, m.view, m.idx) && m.idx != s.idx && m.view + 1 < s.toView
                      then s.out + [ViewChangePkt(Own(s.idx, s.highest, s.toView, s.highestHash))] else s.out
  {
    var s1 := if m.view + 1 < s.toView then BroadcastViewChange(s) else s;
    FastChangesToView(env, StoreRequest(s1, m), order);
    ChangeMeans(env, StoreRequest(s1, m));
  }

  // ----- The fast path -----

  /** The nodes that have an eligible request in store. */
  function Askers(s: Node): set<nat> {
    set v, i | v in s.viewChanges && i in s.viewChanges[v] && Eligible(s, (v, i)) :: i
  }

  /** When the scan comes to it, this request is for the highest view of its node so far. */
  ghost predicate Raises(s: Node, order: seq<(nat, nat)>, k: int) {
    && 0 <= k < |order| && Eligible(s, order[k])
    && forall l :: 0 <= l < k && order[l].1 == order[k].1 && Eligible(s, order[l]) ==> order[l].0 < order[k].0
  }

  ghost predicate RaisesAt(s: Node, order: seq<(nat, nat)>, k: int, height: nat) {
    Raises(s, order, k) && s.viewChanges[order[k].0][order[k].1].height == height
  }

  /** `least` is the least height at which such a request was made. */
  ghost predicate LeastRaised(s: Node, order: seq<(nat, nat)>, least: Option<nat>) {
    && (least.Some? ==> exists k :: RaisesAt(s, order, k, least.value))
    && forall k, h: nat :: RaisesAt(s, order, k, h) ==> least.Some? && least.value <= h
  }

  lemma {:induction false} ScanHeights(s: Node, order: seq<(nat, nat)>)
    requires Listed(s.viewChanges, order)
    ensures LeastRaised(s, order, ScanAll(s, order).minHeight)
  {
    if order != [] {
      var k := |order| - 1;
      var init := order[..k];
      assert forall e :: e in init ==> e in order;
      ScanHeights(s, init);
      ScanFinds(s, init);
      assert order[k] in order && order == init + [order[k]];
      HeightStep(s, init, ScanAll(s, init), order[k]);
    }
  }

  lemma HeightStep(s: Node, init: seq<(nat, nat)>, acc: Scan, e: (nat, nat))
    requires e.0 in s.viewChanges && e.1 in s.viewChanges[e.0] && Highest(s, init, acc.views)
    requires LeastRaised(s, init, acc.minHeight)
    ensures LeastRaised(s, init + [e], ScanOne(s, acc, e.0, e.1).minHeight)
  {
    var order, height := init + [e], s.viewChanges[e.0][e.1].height;
    forall k | 0 <= k < |init| ensures Raises(s, order, k) <==> Raises(s, init, k) { RaisesKept(s, init, e, k); }
    assert forall k, h: nat :: 0 <= k < |init| ==> (RaisesAt(s, order, k, h) <==> RaisesAt(s, init, k, h));
    RaisesLast(s, init, e, acc.views);
    var least := ScanOne(s, acc, e.0, e.1).minHeight;
    if least.Some? {
      if least == acc.minHeight {
        var k :| RaisesAt(s, init, k, least.value);
        assert RaisesAt(s, order, k, least.value);
      } else {
        assert RaisesAt(s, order, |init|, least.value);
      }
    }
  }

  lemma RaisesKept(s: Node, init: seq<(nat, nat)>, e: (nat, nat), k: nat)
    requires k < |init|
    ensures Raises(s, init + [e], k) <==> Raises(s, init, k)
  {
    assert forall l :: 0 <= l <= k ==> (init + [e])[l] == init[l];
  }

  lemma RaisesLast(s: Node, init: seq<(nat, nat)>, e: (nat, nat), views: map<nat, nat>)
    requires Highest(s, init, views)
    ensures Raises(s, init + [e], |init|) <==> Eligible(s, e) && (e.1 in views ==> e.0 > views[e.1])
  {
    var order := init + [e];
    assert forall l :: 0 <= l < |init| ==> order[l] == init[l];
    if e.1 in views {
      assert (views[e.1], e.1) in init;
      var l :| 0 <= l < |init| && init[l] == (views[e.1], e.1);
      assert Eligible(s, order[l]);
    }
    forall l | 0 <= l < |init| && order[l].1 == e.1 && Eligible(s, order[l])
      ensures e.1 in views && order[l].0 <= views[e.1]
    {
      assert init[l] in init;
    }
  }

  /** The node is locked at the height in progress and nothing it goes by was asked for below that height. */
  ghost predicate HeldBack(s: Node, order: seq<(nat, nat)>) {
    && s.committed.Some? && s.committed.value.height == s.consensus
    && (exists k :: RaisesAt(s, order, k, s.consensus))
    && forall k, h: nat :: RaisesAt(s, order, k, h) ==> h >= s.consensus
  }

  /** The `k`-th request is its node's first, for a view no higher than any other node's first. */
  ghost predicate FoundLeast(s: Node, order: seq<(nat, nat)>, k: int) {
    First(s, order, k) && order[k].0 > 0 && forall l :: First(s, order, l) ==> order[k].0 <= order[l].0
  }

  /** The fast path acts if and only if more than f nodes have eligible requests and the lock does not hold it back. */
  lemma FastActsIff(env: Env, s: Node, order: seq<(nat, nat)>) returns (k: int)
    requires Enumerates(s.viewChanges, order)
    ensures if |Askers(s)| > env.MaxFaulty() && Askers(s) != {} && !HeldBack(s, order) then
              && FoundLeast(s, order, k)
              && FastViewChange(env, s, order) == s.(toView := order[k].0 - 1)
            else FastViewChange(env, s, order) == s
  {
    k := ScanMeans(s, order);
    var asked := Askers(s) != {};
    FastActs(env, s, order, |Askers(s)|, asked, HeldBack(s, order), if asked then order[k].0 else 1);
  }

  lemma FastActs(env: Env, s: Node, order: seq<(nat, nat)>, count: nat, asked: bool, held: bool, v: nat)
    requires Listed(s.viewChanges, order) && v > 0
    requires var r := ScanAll(s, order);
             && |r.views| == count && (asked <==> r.minView.Some?) && (asked ==> r.minView.value == v)
             && (held <==> r.minHeight == Some(s.consensus) && Locked(s, s.consensus))
    ensures FastViewChange(env, s, order) ==
              if count > env.MaxFaulty() && asked && !held then s.(toView := v - 1) else s
  {
  }

  /** The scan's outcome in these terms. */
  lemma ScanMeans(s: Node, order: seq<(nat, nat)>) returns (k: int)
    requires Enumerates(s.viewChanges, order)
    ensures var r := ScanAll(s, order);
            && |r.views| == |Askers(s)| && (r.minView.None? <==> Askers(s) == {})
            && (HeldBack(s, order) <==> r.minHeight == Some(s.consensus) && Locked(s, s.consensus))
            && (r.minView.Some? ==> FoundLeast(s, order, k) && order[k].0 == r.minView.value)
  {
    ScanFinds(s, order);
    ScanHeights(s, order);
    var r := ScanAll(s, order);
    AskersScanned(s, order, r.views);
    HeldBackIff(s, order, r.minHeight);
    k := LeastFound(s, order, r.minView);
  }

  lemma LeastFound(s: Node, order: seq<(nat, nat)>, least: Option<nat>) returns (k: int)
    requires LeastFirst(s, order, least)
    ensures least.Some? ==> FoundLeast(s, order, k) && order[k].0 == least.value
  {
    k := 0;
    if least.Some? { k :| First(s, order, k) && order[k].0 == least.value; }
  }

  lemma HeldBackIff(s: Node, order: seq<(nat, nat)>, least: Option<nat>)
    requires LeastRaised(s, order, least)
    ensures HeldBack(s, order) <==> least == Some(s.consensus) && Locked(s, s.consensus)
  {
    if least.Some? {
      var k :| RaisesAt(s, order, k, least.value);
    }
  }

  lemma AskersScanned(s: Node, order: seq<(nat, nat)>, views: map<nat, nat>)
    requires Enumerates(s.viewChanges, order) && Highest(s, order, views)
    ensures views.Keys == Askers(s) && |views| == |Askers(s)| && (views == map[] <==> Askers(s) == {})
  {
    forall i | i in Askers(s) ensures i in views {
      var v :| v in s.viewChanges && i in s.viewChanges[v] && Eligible(s, (v, i));
      assert (v, i) in order;
    }
    forall i | i in views ensures i in Askers(s) {
      assert Eligible(s, (views[i], i));
    }
    assert views.Keys == Askers(s);
    assert |views.Keys| == |views|;
  }
}
