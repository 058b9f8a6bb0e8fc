/**
 The consensus node as a state transformer: what each message handler, the
 view timer and the block report of cvpoc/PBFT.cpp do to one node's fields.

 A cleared request slot is `None`. A signature is identified by the key that
 made it and the hash it covers, so one key has one signature per hash.
 Whether a proposed block passes the node's own chain checks is an argument of
 the prepare handler; the hash it has after execution is `Env.execute`.
 */
module Pbft {
  import opened Wrappers

  type Hash = nat

  datatype Signature = Signature(key: nat, hash: Hash)

  /** A signed request. `fieldsSigned` is the outcome of verifying the signature over the other fields. */
  datatype Msg = Msg(height: nat, view: nat, idx: nat, hash: Hash, sig: Signature, fieldsSigned: bool)

  datatype Packet =
    | PreparePkt(m: Msg)
    | SignPkt(m: Msg)
    | CommitPkt(m: Msg)
    | ViewChangePkt(m: Msg)

  type Votes = map<Signature, Msg>
  type Requests = map<nat, map<nat, Msg>>

  /** What all nodes share: their number, and what executing a proposed block yields. */
  datatype Env = Env(n: nat, execute: Hash -> Hash) {
    function MaxFaulty(): int { (n - 1) / 3 }
    function Quorum(): int { n - MaxFaulty() }
  }

  datatype Node = Node(
    idx: nat,
    view: nat,
    toView: nat,
    leaderFailed: bool,
    raw: Option<Msg>,
    prepare: Option<Msg>,
    committed: Option<Msg>,
    future: Option<Msg>,
    signs: map<Hash, Votes>,
    commits: map<Hash, Votes>,
    viewChanges: Requests,
    highest: nat,
    highestHash: Hash,
    consensus: nat,
    out: seq<Packet>,
    sealed: seq<Msg>)

  /** The state set up by initEnv, before the first block is reported. */
  function Initial(idx: nat): Node {
    Node(idx, 0, 0, false, None, None, None, None, map[], map[], map[], 0, 0, 0, [], [])
  }

  function Own(idx: nat, height: nat, view: nat, hash: Hash): Msg {
    Msg(height, view, idx, hash, Signature(idx, hash), true)
  }

  predicate CheckSign(env: Env, m: Msg) {
    m.idx < env.n && m.sig == Signature(m.idx, m.hash) && m.fieldsSigned
  }

  function VotesFor(cache: map<Hash, Votes>, hash: Hash): Votes {
    if hash in cache then cache[hash] else map[]
  }

  function AddVote(cache: map<Hash, Votes>, m: Msg): map<Hash, Votes> {
    cache[m.hash := VotesFor(cache, m.hash)[m.sig := m]]
  }

  function OnlyView(votes: Votes, view: nat): Votes {
    map k | k in votes && votes[k].view == view :: votes[k]
  }

  function KeepView(cache: map<Hash, Votes>, hash: Hash, view: nat): map<Hash, Votes> {
    if hash in cache then cache[hash := OnlyView(cache[hash], view)] else cache
  }

  predicate Leads(env: Env, s: Node, idx: nat) {
    !s.leaderFailed && env.n > 0 && idx == (s.view + s.highest) % env.n
  }

  function AddPrepare(s: Node, p: Msg): Node {
    s.(prepare := Some(p),
       signs := KeepView(s.signs, p.hash, p.view),
       commits := KeepView(s.commits, p.hash, p.view))
  }

  function BroadcastSign(s: Node, p: Msg): Node {
    var m := Own(s.idx, p.height, p.view, p.hash);
    s.(out := s.out + [SignPkt(m)], signs := AddVote(s.signs, m))
  }

  function BroadcastCommit(s: Node, p: Msg): Node {
    var m := Own(s.idx, p.height, p.view, p.hash);
    s.(out := s.out + [CommitPkt(m)], commits := AddVote(s.commits, m))
  }

  function CheckAndSave(env: Env, s: Node): Node {
    if s.prepare.None? then s else
      var p := s.prepare.value;
      if |VotesFor(s.signs, p.hash)| >= env.Quorum() && |VotesFor(s.commits, p.hash)| == env.Quorum()
         && p.view == s.view && p.height > s.highest
      then s.(sealed := s.sealed + [p])
      else s
  }

  /** The lock takes the raw slot; the commit vote names the executed block. */
  function CheckAndCommit(env: Env, s: Node): Node {
    if s.prepare.None? then s else
      var p := s.prepare.value;
      if |VotesFor(s.signs, p.hash)| != env.Quorum() || p.view != s.view then s
      else CheckAndSave(env, BroadcastCommit(s.(committed := s.raw), p))
  }

  /** Prepares the executed block, votes for it and commits if that completes a quorum. */
  function Accept(env: Env, s: Node, height: nat, view: nat, leader: nat, executed: Hash): Node {
    var p := Msg(height, view, leader, executed, Signature(s.idx, executed), true);
    CheckAndCommit(env, BroadcastSign(AddPrepare(s, p), p))
  }

  predicate Locked(s: Node, height: nat) {
    s.committed.Some? && s.committed.value.height == height
  }

  predicate Duplicate(s: Node, m: Msg) {
    s.raw.Some? && s.raw.value.hash == m.hash
  }

  /** A proposal for the height and view in progress: the raw slot is filled before anything is checked. */
  function TakePrepare(env: Env, s: Node, m: Msg, valid: bool): Node {
    var s1 := s.(raw := Some(m));
    if !Leads(env, s1, m.idx) then s1
    else if Locked(s1, m.height) && s1.committed.value.hash != m.hash then s1
    else if !CheckSign(env, m) || !valid then s1
    else Accept(env, s1, m.height, m.view, m.idx, env.execute(m.hash))
  }

  function HandlePrepare(env: Env, s: Node, m: Msg, self: bool, valid: bool): Node {
    if Duplicate(s, m) then s
    else if !self && m.idx == s.idx then s
    else if m.height < s.consensus || m.view < s.view then s
    else if m.height > s.consensus || m.view > s.view then
      if s.future.Some? && s.future.value.hash == m.hash then s else s.(future := Some(m))
    else TakePrepare(env, s, m, valid)
  }

  function HandleFuture(env: Env, s: Node, valid: bool): Node {
    if s.future.Some? && s.future.value.height == s.consensus && s.future.value.view == s.view
    then HandlePrepare(env, s, s.future.value, false, valid).(future := None)
    else s
  }

  predicate Known(cache: map<Hash, Votes>, m: Msg) {
    m.hash in cache && m.sig in cache[m.hash]
  }

  predicate Prepared(s: Node, hash: Hash) {
    s.prepare.Some? && s.prepare.value.hash == hash
  }

  function HandleSign(env: Env, s: Node, m: Msg): Node {
    if Known(s.signs, m) || m.idx == s.idx then s
    else if !Prepared(s, m.hash) then
      if (m.height >= s.consensus || m.view > s.view) && CheckSign(env, m)
      then s.(signs := AddVote(s.signs, m)) else s
    else if s.prepare.value.view != m.view || !CheckSign(env, m) then s
    else CheckAndCommit(env, s.(signs := AddVote(s.signs, m)))
  }

  function HandleCommit(env: Env, s: Node, m: Msg): Node {
    if Known(s.commits, m) || m.idx == s.idx then s
    else if !Prepared(s, m.hash) then
      if (m.height >= s.consensus || m.view > s.view) && CheckSign(env, m)
      then s.(commits := AddVote(s.commits, m)) else s
    else if s.prepare.value.view != m.view || !CheckSign(env, m) then s
    else CheckAndSave(env, s.(commits := AddVote(s.commits, m)))
  }

  // View changes

  function RequestsFor(vcs: Requests, view: nat): map<nat, Msg> {
    if view in vcs then vcs[view] else map[]
  }

  function AboveView(vcs: Requests, view: nat): Requests {
    map v | v in vcs && v > view :: vcs[v]
  }

  function BroadcastViewChange(s: Node): Node {
    s.(out := s.out + [ViewChangePkt(Own(s.idx, s.highest, s.toView, s.highestHash))])
  }

  function ChangeView(s: Node): Node {
    s.(leaderFailed := false, view := s.toView,
       raw := None, prepare := None, signs := map[], commits := map[],
       viewChanges := AboveView(s.viewChanges, s.toView))
  }

  function CheckAndChangeView(env: Env, s: Node): Node {
    if |RequestsFor(s.viewChanges, s.toView)| < env.Quorum() - 1 then s else ChangeView(s)
  }

  /** A stored request still counts if it was made at or above the head, and on the head if at its height. */
  predicate Current(m: Msg, highest: nat, highestHash: Hash) {
    m.height > highest || (m.height == highest && m.hash == highestHash)
  }

  function CurrentOnly(reqs: map<nat, Msg>, highest: nat, highestHash: Hash): map<nat, Msg> {
    map i | i in reqs && Current(reqs[i], highest, highestHash) :: reqs[i]
  }

  /** The next view is wanted, and only current requests for it still count. */
  function BeforeTimeout(s: Node): Node {
    var v := s.toView + 1;
    s.(leaderFailed := true, toView := v,
       viewChanges := if v in s.viewChanges
                      then s.viewChanges[v := CurrentOnly(s.viewChanges[v], s.highest, s.highestHash)]
                      else s.viewChanges)
  }

  /** checkTimeout once the interval has passed. */
  function Timeout(env: Env, s: Node): Node {
    CheckAndChangeView(env, BroadcastViewChange(BeforeTimeout(s)))
  }

  /** What the scan of handleViewChangeMsg has gathered: the view held per node and two running minima. */
  datatype Scan = Scan(views: map<nat, nat>, minView: Option<nat>, minHeight: Option<nat>)

  function LessOf(a: Option<nat>, b: nat): Option<nat> {
    if a.None? || a.value > b then Some(b) else a
  }

  function ScanOne(s: Node, acc: Scan, v: nat, i: nat): Scan
    requires v in s.viewChanges && i in s.viewChanges[v]
  {
    var m := s.viewChanges[v][i];
    if v > s.toView && m.height >= s.highest && (i !in acc.views || v > acc.views[i])
    then Scan(acc.views[i := v], LessOf(acc.minView, v), LessOf(acc.minHeight, m.height))
    else acc
  }

  predicate Listed(vcs: Requests, order: seq<(nat, nat)>) {
    forall e :: e in order ==> e.0 in vcs && e.1 in vcs[e.0]
  }

  /** The scan, in the iteration order `order` of the two hash tables. */
  function ScanAll(s: Node, order: seq<(nat, nat)>): Scan
    requires Listed(s.viewChanges, order)
  {
    if order == [] then Scan(map[], None, None)
    else
      var k := |order| - 1;
      assert order[k] in order;
      assert forall e :: e in order[..k] ==> e in order;
      ScanOne(s, ScanAll(s, order[..k]), order[k].0, order[k].1)
  }

  /** `order` visits every stored request once. */
  predicate Enumerates(vcs: Requests, order: seq<(nat, nat)>) {
    && Listed(vcs, order)
    && (forall v, i :: v in vcs && i in vcs[v] ==> (v, i) in order)
    && (forall a, b :: 0 <= a < b < |order| ==> order[a] != order[b])
  }

  function StoreRequest(s: Node, m: Msg): Node {
    s.(viewChanges := s.viewChanges[m.view := RequestsFor(s.viewChanges, m.view)[m.idx := m]])
  }

  function FastViewChange(env: Env, s: Node, order: seq<(nat, nat)>): Node
    requires Listed(s.viewChanges, order)
  {
    var r := ScanAll(s, order);
    var waiting := r.minHeight == Some(s.consensus) && Locked(s, s.consensus);
    if |r.views| > env.MaxFaulty() && !waiting && r.minView.Some? && r.minView.value > 0
    then s.(toView := r.minView.value - 1)
    else s
  }

  predicate Rejected(env: Env, s: Node, m: Msg, known: bool) {
    || m.height < s.highest || m.view <= s.view
    || (m.height == s.highest && m.hash != s.highestHash && !known)
    || !CheckSign(env, m)
  }

  predicate Seen(s: Node, m: Msg) {
    m.view in s.viewChanges && m.idx in s.viewChanges[m.view]
  }

  /** A request that is neither repeated nor the node's own; `known` tells whether the chain holds its block. */
  function TakeRequest(env: Env, s: Node, m: Msg, known: bool, order: seq<(nat, nat)>): Node
    requires Listed(StoreRequest(s, m).viewChanges, order)
  {
    if Rejected(env, s, m, known) then s
    else
      var s1 := StoreRequest(s, m);
      if m.view == s1.toView then CheckAndChangeView(env, s1) else FastViewChange(env, s1, order)
  }

  function HandleViewChange(env: Env, s: Node, m: Msg, known: bool, order: seq<(nat, nat)>): Node
    requires Listed(StoreRequest(s, m).viewChanges, order)
  {
    if Seen(s, m) || m.idx == s.idx then s
    else TakeRequest(env, if m.view + 1 < s.toView then BroadcastViewChange(s) else s, m, known, order)
  }

  // Blocks

  function Forget(cache: map<Hash, Votes>, hash: Hash): map<Hash, Votes> {
    map h | h in cache && h != hash :: cache[h]
  }

  function DelCache(s: Node, hash: Hash): Node {
    s.(signs := Forget(s.signs, hash), commits := Forget(s.commits, hash),
       prepare := if Prepared(s, hash) then None else s.prepare)
  }

  function DelViewChange(vcs: Requests, highest: nat, highestHash: Hash): Requests {
    map v | v in vcs && CurrentOnly(vcs[v], highest, highestHash) != map[]
          :: CurrentOnly(vcs[v], highest, highestHash)
  }

  /** The head becomes this block; if that ends the height in progress, the next one starts in view 0. */
  function Advance(s: Node, number: nat, hash: Hash): Node {
    var s1 := s.(highest := number, highestHash := hash);
    if number < s1.consensus then s1
    else s1.(view := 0, toView := 0, leaderFailed := false, consensus := number + 1,
             viewChanges := DelViewChange(s1.viewChanges, number, hash))
  }

  function Report(s: Node, number: nat, hash: Hash): Node {
    DelCache(Advance(s, number, hash), hash)
  }

  function DropBelow(cache: map<Hash, Votes>, highest: nat): map<Hash, Votes> {
    map h | h in cache && Recent(cache[h], highest) != map[] :: Recent(cache[h], highest)
  }

  function Recent(votes: Votes, highest: nat): Votes {
    map k | k in votes && votes[k].height >= highest :: votes[k]
  }

  function CollectGarbage(s: Node): Node {
    s.(signs := DropBelow(s.signs, s.highest), commits := DropBelow(s.commits, s.highest))
  }

  // Proposing

  /** shouldSeal answers yes: this node leads and holds no lock at the height in progress. */
  predicate MaySeal(env: Env, s: Node) {
    Leads(env, s, s.idx) && !Locked(s, s.consensus)
  }

  /** A leader with a lock at this height puts it forward again unless a raw proposal is already there. */
  predicate ReProposes(env: Env, s: Node) {
    Leads(env, s, s.idx) && Locked(s, s.consensus)
    && !(s.raw.Some? && s.raw.value.height == s.consensus)
  }

  function ShouldSeal(env: Env, s: Node, valid: bool): Node {
    if !ReProposes(env, s) then s
    else
      var m := Own(s.idx, s.committed.value.height, s.view, s.committed.value.hash);
      HandlePrepare(env, s.(out := s.out + [PreparePkt(m)]), m, true, valid)
  }

  /** generateSeal followed by generateCommit for the block with hash `hash`. */
  function Propose(env: Env, s: Node, hash: Hash): Node {
    var m := Own(s.idx, s.consensus, s.view, hash);
    Accept(env, s.(out := s.out + [PreparePkt(m)], raw := Some(m)),
           s.consensus, s.view, s.idx, env.execute(hash))
  }
}
