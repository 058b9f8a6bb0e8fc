/**
 The account state that contracts see, and the journal that undoes changes to
 it (libcv/State.cpp, libcv/Account.h): a cache of accounts over a trie, whose
 clean entries may be dropped at any time, and a log of changes.

 A `View` is what the state's getters can tell: for every address whether an
 account is there, its balance, nonce, code and every storage slot.
 */
module StateJournal {
  import opened Wrappers

  const W: nat := 0x1_0000000000000000_0000000000000000_0000000000000000_0000000000000000

  type U256 = n: nat | n < W witness 0
  type Address = nat
  type Hash = nat
  type Bytes = seq<nat>

  function Add(x: U256, y: U256): U256 { (x + y) % W }

  /** 0 - y in 256-bit arithmetic. */
  function Neg(y: U256): U256 { (W - y) % W }

  lemma AddNeg(x: U256, y: U256)
    ensures Add(Add(x, y), Neg(y)) == x
  {
    if y > 0 {
      if x + y < W { assert x + y + (W - y) == x + W; } else { assert x + y - W + (W - y) == x; }
    }
  }

  /** A record of the state trie. */
  datatype Record = Record(nonce: U256, balance: U256, root: Hash, codeHash: Hash)

  /** The databases under the cache, unchanged until the next commit. */
  datatype Backend = Backend(
    accounts: map<Address, Record>, slots: map<Hash, map<U256, U256>>, code: map<Hash, Bytes>,
    sha3: Bytes -> Hash, emptyTrie: Hash, startNonce: U256)
  {
    function EmptySha3(): Hash { sha3([]) }
    function Slot(root: Hash, k: U256): U256 { if root in slots && k in slots[root] then slots[root][k] else 0 }
    function Lookup(h: Hash): Bytes { if h in code then code[h] else [] }
  }

  /** A cached account. `clean` is the source's m_isUnchanged. */
  datatype Account = Account(
    clean: bool, newCode: bool, nonce: U256, balance: U256, root: Hash, codeHash: Hash,
    overlay: map<U256, U256>, code: Bytes)

  datatype Change =
    | Balance(a: Address, amount: U256)
    | Storage(a: Address, key: U256, value: U256)
    | Nonce(a: Address)
    | Create(a: Address)
    | NewCode(a: Address)
    | Touch(a: Address)

  datatype Store = Store(cache: map<Address, Account>, absent: set<Address>, log: seq<Change>)

  // ----- What can be seen -----

  datatype Seen = Seen(balance: U256, nonce: U256, codeHash: Hash, code: Bytes, storage: imap<U256, U256>)

  type View = imap<Address, Option<Seen>>

  ghost predicate Total(v: View) {
    (forall a: Address :: a in v)
    && forall a: Address, k: U256 :: v[a].Some? ==> k in v[a].value.storage
  }

  ghost function SeenOf(b: Backend, c: Account): Seen {
    Seen(c.balance, c.nonce, c.codeHash,
         if c.codeHash == b.EmptySha3() then [] else if c.code == [] then b.Lookup(c.codeHash) else c.code,
         imap k: U256 :: if k in c.overlay then c.overlay[k] else b.Slot(c.root, k))
  }

  /** The cache entry that a load makes of a trie record. */
  function FromRecord(r: Record): Account {
    Account(true, false, r.nonce, r.balance, r.root, r.codeHash, map[], [])
  }

  ghost function InTrie(b: Backend, a: Address): Option<Seen> {
    if a in b.accounts then Some(SeenOf(b, FromRecord(b.accounts[a]))) else None
  }

  ghost function At(b: Backend, s: Store, a: Address): Option<Seen> {
    if a in s.cache then Some(SeenOf(b, s.cache[a])) else InTrie(b, a)
  }

  ghost function ViewOf(b: Backend, s: Store): (v: View)
    ensures Total(v)
  {
    imap a: Address :: At(b, s, a)
  }

  // ----- What a write may change -----

  /** Every other address looks as before. */
  ghost predicate OnlyAt(v: View, v': View, a: Address)
    requires Total(v) && Total(v')
  {
    forall x: Address :: x != a ==> v'[x] == v[x]
  }

  /** Slot `key` of an account holds `value`; all its other slots and fields are as before. */
  ghost predicate Written(v: View, v': View, a: Address, key: U256, value: U256)
    requires Total(v) && Total(v')
  {
    && v[a].Some? && v'[a].Some? && OnlyAt(v, v', a)
    && var x, y := v[a].value, v'[a].value;
       && y.balance == x.balance && y.nonce == x.nonce && y.codeHash == x.codeHash && y.code == x.code
       && forall k: U256 :: y.storage[k] == if k == key then value else x.storage[k]
  }

  /** An account has this balance and nonce and is otherwise as before. */
  ghost predicate Counted(v: View, v': View, a: Address, balance: int, nonce: int)
    requires Total(v) && Total(v')
  {
    && v[a].Some? && v'[a].Some? && OnlyAt(v, v', a)
    && var x, y := v[a].value, v'[a].value;
       && y.balance == balance && y.nonce == nonce && y.codeHash == x.codeHash && y.code == x.code
       && forall k: U256 :: y.storage[k] == x.storage[k]
  }

  /** An account has come into being, without code and with the slots of an empty trie. */
  ghost predicate Appeared(b: Backend, v: View, v': View, a: Address, balance: int, nonce: int)
    requires Total(v) && Total(v')
  {
    && v[a].None? && v'[a].Some? && OnlyAt(v, v', a)
    && var y := v'[a].value;
       && y.balance == balance && y.nonce == nonce && y.codeHash == b.sha3([]) && y.code == []
       && forall k: U256 :: y.storage[k] == b.Slot(b.emptyTrie, k)
  }

  /** An account shows exactly its record: the code under its code hash and the slots under its root. */
  ghost predicate Shows(b: Backend, y: Seen, r: Record) {
    && y.balance == r.balance && y.nonce == r.nonce && y.codeHash == r.codeHash
    && y.code == (if r.codeHash == b.sha3([]) || r.codeHash !in b.code then [] else b.code[r.codeHash])
    && forall k: U256 :: k in y.storage &&
         y.storage[k] == if r.root in b.slots && k in b.slots[r.root] then b.slots[r.root][k] else 0
  }

  /** The trie, and nothing else, is seen. */
  ghost predicate Mirrors(b: Backend, v: View)
    requires Total(v)
  {
    forall a: Address :: (v[a].Some? <==> a in b.accounts) && (v[a].Some? ==> Shows(b, v[a].value, b.accounts[a]))
  }

  /** An account has got its code; code whose hash is that of no code is not seen. */
  ghost predicate CodeSet(b: Backend, v: View, v': View, a: Address, code: Bytes)
    requires Total(v) && Total(v')
  {
    && v[a].Some? && v'[a].Some? && OnlyAt(v, v', a)
    && var x, y := v[a].value, v'[a].value;
       && y.balance == x.balance && y.nonce == x.nonce && y.codeHash == b.sha3(code)
       && (code != [] && b.sha3(code) != b.sha3([]) ==> y.code == code)
       && forall k: U256 :: y.storage[k] == x.storage[k]
  }

  // ----- Undoing on views -----

  /** One account, one change other than its creation taken back. */
  ghost function UndoSeen(b: Backend, x: Seen, ch: Change): Seen
    requires !ch.Create?
  {
    match ch
    case Balance(_, amount) => x.(balance := Add(x.balance, Neg(amount)))
    case Storage(_, key, value) => x.(storage := x.storage[key := value])
    case Nonce(_) => x.(nonce := Add(x.nonce, Neg(1)))
    case NewCode(_) => x.(codeHash := b.EmptySha3(), code := [])
    case Touch(_) => x
  }

  ghost function Undo(b: Backend, v: View, ch: Change): (v': View)
    requires Total(v)
    ensures Total(v')
  {
    if v[ch.a].None? then v
    else if ch.Create? then v[ch.a := None]
    else v[ch.a := Some(UndoSeen(b, v[ch.a].value, ch))]
  }

  ghost function UndoAll(b: Backend, v: View, log: seq<Change>): (v': View)
    requires Total(v)
    ensures Total(v')
    decreases |log|
  {
    if log == [] then v else UndoAll(b, Undo(b, v, log[|log| - 1]), log[..|log| - 1])
  }

  lemma {:induction false} UndoSplit(b: Backend, v: View, x: seq<Change>, y: seq<Change>)
    requires Total(v)
    ensures UndoAll(b, v, x + y) == UndoAll(b, UndoAll(b, v, y), x)
    decreases |y|
  {
    if y == [] {
      assert x + y == x;
    } else {
      var n := |y| - 1;
      assert (x + y)[|x + y| - 1] == y[n] && (x + y)[..|x + y| - 1] == x + y[..n];
      UndoSplit(b, Undo(b, v, y[n]), x, y[..n]);
    }
  }

  // ----- The operations on views -----

  datatype Op =
    | AddBalance(a: Address, amount: U256, touch: bool)
    | IncNonce(a: Address)
    | SetStorage(a: Address, key: U256, value: U256)
    | CreateContract(a: Address)
    | SetNewCode(a: Address, code: Bytes)
    | Look
    | Rollback(to: nat)

  datatype World = World(view: View, log: seq<Change>)

  ghost function Fresh(b: Backend, nonce: U256, balance: U256): Seen {
    Seen(balance, nonce, b.EmptySha3(), [], imap k: U256 :: b.Slot(b.emptyTrie, k))
  }

  /** An account whose code is set: what code() then tells depends on the hash being that of no code. */
  ghost function Coded(b: Backend, x: Seen, code: Bytes): Seen {
    var h := b.sha3(code);
    x.(codeHash := h, code := if h == b.EmptySha3() then [] else if code == [] then b.Lookup(h) else code)
  }

  /** What the callers of each operation see to. A rollback goes back to a savepoint taken at or after `base`. */
  ghost predicate Allowed(b: Backend, w: World, base: nat, op: Op) {
    Total(w.view) && base <= |w.log|
    && match op
       case SetStorage(a, _, _) => w.view[a].Some?
       case CreateContract(a) => w.view[a].None?
       case SetNewCode(a, _) => w.view[a].Some? && w.view[a].value.codeHash == b.EmptySha3() &&
           w.view[a].value.code == []
       case Rollback(to) => base <= to <= |w.log|
       case _ => true
  }

  ghost function RollbackTo(b: Backend, w: World, to: nat): World
    requires Total(w.view) && to <= |w.log|
  {
    World(UndoAll(b, w.view, w.log[to..]), w.log[..to])
  }

  ghost function Apply(b: Backend, w: World, base: nat, op: Op): (w': World)
    requires Allowed(b, w, base, op)
    ensures Total(w'.view) && base <= |w'.log|
  {
    match op
    case AddBalance(a, amount, touch) =>
      var moved := if amount == 0 then [] else [Balance(a, amount)];
      if w.view[a].Some? then
        var x := w.view[a].value;
        World(w.view[a := Some(x.(balance := Add(x.balance, amount)))],
              w.log + (if touch then [Touch(a)] else []) + moved)
      else World(w.view[a := Some(Fresh(b, b.startNonce, amount))], w.log + [Create(a)] + moved)
    case IncNonce(a) =>
      if w.view[a].Some? then
        var x := w.view[a].value;
        World(w.view[a := Some(x.(nonce := Add(x.nonce, 1)))], w.log + [Nonce(a)])
      else World(w.view[a := Some(Fresh(b, Add(b.startNonce, 1), 0))], w.log + [Create(a)])
    case SetStorage(a, key, value) =>
      var x := w.view[a].value;
      World(w.view[a := Some(x.(storage := x.storage[key := value]))], w.log + [Storage(a, key, x.storage[key])])
    case CreateContract(a) =>
      World(w.view[a := Some(Fresh(b, b.startNonce, 0))], w.log + [Create(a)])
    case SetNewCode(a, code) =>
      World(w.view[a := Some(Coded(b, w.view[a].value, code))], w.log + [NewCode(a)])
    case Look => w
    case Rollback(to) => RollbackTo(b, w, to)
  }

  /** One more on the nonce, or a new account that has used one. */
  lemma IncNonceMeans(b: Backend, w: World, base: nat, a: Address)
    requires Allowed(b, w, base, IncNonce(a))
    ensures var v, v' := w.view, Apply(b, w, base, IncNonce(a)).view;
            if v[a].Some? then Counted(v, v', a, v[a].value.balance, (v[a].value.nonce + 1) % W)
            else Appeared(b, v, v', a, 0, (b.startNonce + 1) % W)
  {
  }

  lemma AddBalanceMeans(b: Backend, w: World, base: nat, a: Address, amount: U256, touch: bool)
    requires Allowed(b, w, base, AddBalance(a, amount, touch))
    ensures var v, v' := w.view, Apply(b, w, base, AddBalance(a, amount, touch)).view;
            if v[a].Some? then Counted(v, v', a, (v[a].value.balance + amount) % W, v[a].value.nonce)
            else Appeared(b, v, v', a, amount, b.startNonce)
  {
  }

  lemma TakeBalanceMeans(b: Backend, w: World, base: nat, a: Address, amount: U256, touch: bool)
    requires Allowed(b, w, base, AddBalance(a, Neg(amount), touch))
    requires w.view[a].Some? && 0 < amount <= w.view[a].value.balance
    ensures var v, v' := w.view, Apply(b, w, base, AddBalance(a, Neg(amount), touch)).view;
            Counted(v, v', a, v[a].value.balance - amount, v[a].value.nonce)
  {
    AddBalanceMeans(b, w, base, a, Neg(amount), touch);
    assert w.view[a].value.balance + (W - amount) == w.view[a].value.balance - amount + W;
  }

  lemma UndoOne(b: Backend, v: View, ch: Change)
    requires Total(v)
    ensures UndoAll(b, v, [ch]) == Undo(b, v, ch)
  {
    assert [ch][..0] == [];
    assert UndoAll(b, Undo(b, v, ch), []) == Undo(b, v, ch);
  }

  /** `w'` logs on top of `w` what takes its view back to that of `w`. */
  ghost predicate Undoes(b: Backend, w: World, w': World) {
    && Total(w.view) && Total(w'.view)
    && |w.log| <= |w'.log| && w'.log[..|w.log|] == w.log
    && UndoAll(b, w'.view, w'.log[|w.log|..]) == w.view
  }

  lemma OneUndoes(b: Backend, w: World, v': View, ch: Change)
    requires Total(w.view) && Total(v') && Undo(b, v', ch) == w.view
    ensures Undoes(b, w, World(v', w.log + [ch]))
  {
    assert (w.log + [ch])[|w.log|..] == [ch];
    UndoOne(b, v', ch);
  }

  lemma CreateUndoes(b: Backend, w: World, a: Address, x: Seen)
    requires Total(w.view) && Total(w.view[a := Some(x)]) && w.view[a].None?
    ensures Undoes(b, w, World(w.view[a := Some(x)], w.log + [Create(a)]))
  {
    assert Undo(b, w.view[a := Some(x)], Create(a)) == w.view;
    OneUndoes(b, w, w.view[a := Some(x)], Create(a));
  }

  lemma ChangeUndoes(b: Backend, w: World, ch: Change, x: Seen)
    requires Total(w.view) && Total(w.view[ch.a := Some(x)]) && w.view[ch.a].Some? && !ch.Create?
    requires UndoSeen(b, x, ch) == w.view[ch.a].value
    ensures Undoes(b, w, World(w.view[ch.a := Some(x)], w.log + [ch]))
  {
    assert Undo(b, w.view[ch.a := Some(x)], ch) == w.view;
    OneUndoes(b, w, w.view[ch.a := Some(x)], ch);
  }

  lemma AddBalanceUndoes(b: Backend, w: World, base: nat, a: Address, amount: U256, touch: bool)
    requires Allowed(b, w, base, AddBalance(a, amount, touch))
    ensures Undoes(b, w, Apply(b, w, base, AddBalance(a, amount, touch)))
  {
    var w' := Apply(b, w, base, AddBalance(a, amount, touch));
    var first := if w.view[a].None? then [Create(a)] else if touch then [Touch(a)] else [];
    var moved := if amount == 0 then [] else [Balance(a, amount)];
    assert w'.log == w.log + (first + moved) && w'.log[|w.log|..] == first + moved;
    UndoBalance(b, w, a, amount, first, moved);
  }

  lemma IncNonceUndoes(b: Backend, w: World, base: nat, a: Address)
    requires Allowed(b, w, base, IncNonce(a))
    ensures Undoes(b, w, Apply(b, w, base, IncNonce(a)))
  {
    if w.view[a].Some? {
      var x := w.view[a].value;
      AddNeg(x.nonce, 1);
      ChangeUndoes(b, w, Nonce(a), x.(nonce := Add(x.nonce, 1)));
    } else {
      CreateUndoes(b, w, a, Fresh(b, Add(b.startNonce, 1), 0));
    }
  }

  lemma SetStorageUndoes(b: Backend, w: World, base: nat, a: Address, key: U256, value: U256)
    requires Allowed(b, w, base, SetStorage(a, key, value))
    ensures Undoes(b, w, Apply(b, w, base, SetStorage(a, key, value)))
  {
    var x := w.view[a].value;
    assert x.storage[key := value][key := x.storage[key]] == x.storage;
    ChangeUndoes(b, w, Storage(a, key, x.storage[key]), x.(storage := x.storage[key := value]));
  }

  lemma SetNewCodeUndoes(b: Backend, w: World, base: nat, a: Address, code: Bytes)
    requires Allowed(b, w, base, SetNewCode(a, code))
    ensures Undoes(b, w, Apply(b, w, base, SetNewCode(a, code)))
  {
    var x := w.view[a].value;
    ChangeUndoes(b, w, NewCode(a), Coded(b, x, code));
  }

  /** Undoing what an operation logged gives back the view before it. */
  lemma ApplyUndone(b: Backend, w: World, base: nat, op: Op)
    requires Allowed(b, w, base, op) && !op.Rollback?
    ensures Undoes(b, w, Apply(b, w, base, op))
  {
    match op
    case AddBalance(a, amount, touch) => AddBalanceUndoes(b, w, base, a, amount, touch);
    case IncNonce(a) => IncNonceUndoes(b, w, base, a);
    case SetStorage(a, key, value) => SetStorageUndoes(b, w, base, a, key, value);
    case CreateContract(a) => CreateUndoes(b, w, a, Fresh(b, b.startNonce, 0));
    case SetNewCode(a, code) => SetNewCodeUndoes(b, w, base, a, code);
    case Look => assert w.log[|w.log|..] == [];
  }

  lemma UndoBalance(b: Backend, w: World, a: Address, amount: U256, first: seq<Change>, moved: seq<Change>)
    requires Total(w.view)
    requires moved == if amount == 0 then [] else [Balance(a, amount)]
    requires if w.view[a].None? then first == [Create(a)] else first == [] || first == [Touch(a)]
    ensures w.view[a].Some? ==>
              var x := w.view[a].value;
              UndoAll(b, w.view[a := Some(x.(balance := Add(x.balance, amount)))], first + moved) == w.view
    ensures w.view[a].None? ==>
              UndoAll(b, w.view[a := Some(Fresh(b, b.startNonce, amount))], first + moved) == w.view
  {
    var v' := if w.view[a].Some?
              then w.view[a := Some(w.view[a].value.(balance := Add(w.view[a].value.balance, amount)))]
              else w.view[a := Some(Fresh(b, b.startNonce, amount))];
    assert Total(v');
    UndoSplit(b, v', first, moved);
    var v1 := UndoAll(b, v', moved);
    if amount != 0 { UndoOne(b, v', Balance(a, amount)); }
    if w.view[a].Some? {
      AddNeg(w.view[a].value.balance, amount);
      assert v1 == w.view;
      if first != [] { UndoOne(b, v1, Touch(a)); }
    } else {
      UndoOne(b, v1, Create(a));
      assert Undo(b, v1, Create(a)) == w.view;
    }
  }

  ghost predicate AllAllowed(b: Backend, w: World, base: nat, ops: seq<Op>)
    decreases |ops|
  {
    ops == [] || (Allowed(b, w, base, ops[0]) && AllAllowed(b, Apply(b, w, base, ops[0]), base, ops[1..]))
  }

  ghost function ApplyAll(b: Backend, w: World, base: nat, ops: seq<Op>): World
    requires AllAllowed(b, w, base, ops)
    decreases |ops|
  {
    if ops == [] then w else ApplyAll(b, Apply(b, w, base, ops[0]), base, ops[1..])
  }

  lemma UndoesTransitive(b: Backend, w0: World, w: World, w': World)
    requires Undoes(b, w0, w) && Undoes(b, w, w')
    ensures Undoes(b, w0, w')
  {
    LogParts(w0.log, w.log, w'.log);
    UndoSplit(b, w'.view, w.log[|w0.log|..], w'.log[|w.log|..]);
  }

  lemma LogParts(x: seq<Change>, y: seq<Change>, z: seq<Change>)
    requires |x| <= |y| <= |z| && y[..|x|] == x && z[..|y|] == y
    ensures z[..|x|] == x && z[|x|..] == y[|x|..] + z[|y|..]
  {
    assert z[..|x|] == z[..|y|][..|x|];
    assert z == y + z[|y|..];
  }

  lemma RollbackUndoes(b: Backend, w0: World, w: World, to: nat)
    requires Undoes(b, w0, w) && |w0.log| <= to <= |w.log|
    ensures Undoes(b, w0, RollbackTo(b, w, to))
  {
    var kept, undone := w.log[|w0.log|..to], w.log[to..];
    assert w.log[|w0.log|..] == kept + undone;
    UndoSplit(b, w.view, kept, undone);
    assert w.log[..to][|w0.log|..] == kept;
  }

  lemma StepUndoes(b: Backend, w0: World, w: World, op: Op)
    requires Undoes(b, w0, w) && Allowed(b, w, |w0.log|, op)
    ensures Undoes(b, w0, Apply(b, w, |w0.log|, op))
  {
    if op.Rollback? {
      RollbackUndoes(b, w0, w, op.to);
    } else {
      ApplyUndone(b, w, |w0.log|, op);
      UndoesTransitive(b, w0, w, Apply(b, w, |w0.log|, op));
    }
  }

  lemma {:induction false} RunUndoes(b: Backend, w0: World, w: World, ops: seq<Op>)
    requires Undoes(b, w0, w) && AllAllowed(b, w, |w0.log|, ops)
    ensures Undoes(b, w0, ApplyAll(b, w, |w0.log|, ops))
    decreases |ops|
  {
    if ops != [] {
      StepUndoes(b, w0, w, ops[0]);
      RunUndoes(b, w0, Apply(b, w, |w0.log|, ops[0]), ops[1..]);
    }
  }

  /**
   Rolling back to a savepoint gives back the world at the savepoint, whatever balance, nonce, storage,
   creation and code changes, loads, evictions and nested rollbacks lie between.
   */
  lemma RollbackRestores(b: Backend, w: World, ops: seq<Op>)
    requires Total(w.view) && AllAllowed(b, w, |w.log|, ops)
    ensures var w' := ApplyAll(b, w, |w.log|, ops);
            Total(w'.view) && |w.log| <= |w'.log| && RollbackTo(b, w', |w.log|) == w
  {
    assert w.log[|w.log|..] == [];
    RunUndoes(b, w, w, ops);
  }

  // ----- The cache invariant -----

  ghost predicate NoEntry(log: seq<Change>, a: Address) { forall ch :: ch in log ==> ch.a != a }

  /** A clean entry is its trie record and has no history; logged addresses are cached. */
  ghost predicate CacheOk(b: Backend, s: Store) {
    && (forall a :: a in s.cache && s.cache[a].clean ==> At(b, s, a) == InTrie(b, a) && NoEntry(s.log, a))
    && (forall ch :: ch in s.log ==> ch.a in s.cache)
    && (forall a :: a in s.absent ==> a !in b.accounts && a !in s.cache)
  }

  /** Touching and creating come first in an account's history, and undo to the trie record. */
  ghost predicate Rooted(b: Backend, v: View, log: seq<Change>, i: nat)
    requires Total(v) && i < |log|
  {
    log[i].Touch? || log[i].Create? ==>
      NoEntry(log[..i], log[i].a) && UndoAll(b, v, log[i..])[log[i].a] == InTrie(b, log[i].a)
  }

  ghost predicate HistoryOk(b: Backend, v: View, log: seq<Change>)
    requires Total(v)
  {
    forall i: nat :: i < |log| ==> Rooted(b, v, log, i)
  }

  ghost predicate Inv(b: Backend, s: Store) {
    CacheOk(b, s) && HistoryOk(b, ViewOf(b, s), s.log)
  }

  lemma RootedGrows(b: Backend, v: View, v': View, log: seq<Change>, added: seq<Change>, i: nat)
    requires Total(v) && Total(v') && UndoAll(b, v', added) == v && i < |log| && Rooted(b, v, log, i)
    ensures Rooted(b, v', log + added, i)
  {
    var all := log + added;
    assert all[i..] == log[i..] + added && all[..i] == log[..i] && all[i] == log[i];
    UndoSplit(b, v', log[i..], added);
  }

  /** A mutation that logs what undoes it keeps the history. */
  lemma HistoryGrows(b: Backend, v: View, v': View, log: seq<Change>, added: seq<Change>)
    requires Total(v) && Total(v') && HistoryOk(b, v, log) && UndoAll(b, v', added) == v
    requires added != [] && (added[0].Touch? || added[0].Create?) ==>
               NoEntry(log, added[0].a) && v[added[0].a] == InTrie(b, added[0].a)
    requires forall i :: 1 <= i < |added| ==> !(added[i].Touch? || added[i].Create?)
    ensures HistoryOk(b, v', log + added)
  {
    var all := log + added;
    forall i: nat | i < |all| ensures Rooted(b, v', all, i) {
      if i < |log| {
        RootedGrows(b, v, v', log, added, i);
      } else if i == |log| {
        assert all[i..] == added && all[..i] == log && all[i] == added[0];
      } else {
        assert all[i] == added[i - |log|];
      }
    }
  }

  lemma HistoryShrinks(b: Backend, v: View, log: seq<Change>)
    requires Total(v) && HistoryOk(b, v, log) && log != []
    ensures HistoryOk(b, Undo(b, v, log[|log| - 1]), log[..|log| - 1])
  {
    var n := |log| - 1;
    var rest := log[..n];
    forall i: nat | i < |rest| ensures Rooted(b, Undo(b, v, log[n]), rest, i) {
      assert Rooted(b, v, log, i) && rest[i] == log[i];
      assert rest[..i] == log[..i] && log[i..][..|log[i..]| - 1] == rest[i..];
      assert log[i..][|log[i..]| - 1] == log[n];
    }
  }

  // ----- The store's primitives -----

  /** Reading an account in, which may drop clean entries. */
  ghost predicate Loaded(b: Backend, s: Store, s': Store, a: Address) {
    && s'.log == s.log
    && (a in s'.cache <==> a in s.cache || a in b.accounts)
    && (forall x :: x in s.cache && !s.cache[x].clean ==> x in s'.cache)
    && (forall x :: x in s'.cache && x in s.cache ==> s'.cache[x] == s.cache[x])
    && (forall x :: x in s'.cache && x !in s.cache ==>
          x == a && a in b.accounts && s'.cache[x] == FromRecord(b.accounts[a]))
    && (forall x :: x in s'.absent ==> x in s.absent || (x == a && a !in s.cache && a !in b.accounts))
  }

  lemma LoadKeeps(b: Backend, s: Store, s': Store, a: Address)
    requires Inv(b, s) && Loaded(b, s, s', a)
    ensures Inv(b, s') && ViewOf(b, s') == ViewOf(b, s)
  {
    forall x: Address ensures At(b, s', x) == At(b, s, x) {}
    assert ViewOf(b, s') == ViewOf(b, s);
  }

  /** The entry of `a` replaced by `c`, and `added` logged. */
  function Put(s: Store, a: Address, c: Account, added: seq<Change>): Store {
    Store(s.cache[a := c], s.absent - {a}, s.log + added)
  }

  lemma PutView(b: Backend, s: Store, a: Address, c: Account, added: seq<Change>)
    ensures ViewOf(b, Put(s, a, c, added)) == ViewOf(b, s)[a := Some(SeenOf(b, c))]
  {
  }

  /** A write that makes the entry dirty and logs changes of `a` that undo it. */
  lemma PutKeeps(b: Backend, s: Store, a: Address, c: Account, added: seq<Change>)
    requires Inv(b, s) && !c.clean
    requires forall ch :: ch in added ==> ch.a == a
    requires UndoAll(b, ViewOf(b, Put(s, a, c, added)), added) == ViewOf(b, s)
    requires added != [] && (added[0].Touch? || added[0].Create?) ==> NoEntry(s.log, a) && At(b, s, a) == InTrie(b, a)
    requires forall i :: 1 <= i < |added| ==> !(added[i].Touch? || added[i].Create?)
    ensures Inv(b, Put(s, a, c, added))
  {
    var s' := Put(s, a, c, added);
    HistoryGrows(b, ViewOf(b, s), ViewOf(b, s'), s.log, added);
    forall x | x in s'.cache && s'.cache[x].clean
      ensures At(b, s', x) == InTrie(b, x) && NoEntry(s'.log, x)
    {
      assert x != a && s.cache[x].clean;
    }
  }

  /** A write that changes nothing visible: storage cache and code cache. */
  lemma PutSame(b: Backend, s: Store, a: Address, c: Account)
    requires Inv(b, s) && a in s.cache && SeenOf(b, c) == SeenOf(b, s.cache[a])
    requires c.clean == s.cache[a].clean
    ensures Inv(b, Put(s, a, c, [])) && ViewOf(b, Put(s, a, c, [])) == ViewOf(b, s)
  {
    var s' := Put(s, a, c, []);
    PutView(b, s, a, c, []);
    assert ViewOf(b, s') == ViewOf(b, s);
    assert s'.log == s.log;
    forall x | x in s'.cache && s'.cache[x].clean ensures At(b, s', x) == InTrie(b, x) {
      assert At(b, s', x) == ViewOf(b, s')[x] == ViewOf(b, s)[x] == At(b, s, x);
    }
  }

  function UndoAccount(b: Backend, c: Account, ch: Change): Account
    requires !ch.Create?
  {
    match ch
    case Storage(_, key, value) => c.(overlay := c.overlay[key := value], clean := false)
    case Balance(_, amount) => c.(balance := Add(c.balance, Neg(amount)), clean := false)
    case Nonce(_) => c.(nonce := Add(c.nonce, Neg(1)), clean := false)
    case NewCode(_) => c.(code := [], newCode := false, codeHash := b.EmptySha3())
    case Touch(_) => c.(clean := true)
  }

  lemma UndoAccountSeen(b: Backend, c: Account, ch: Change)
    requires !ch.Create?
    ensures SeenOf(b, UndoAccount(b, c, ch)) == UndoSeen(b, SeenOf(b, c), ch)
  {
    if ch.Storage? {
      assert SeenOf(b, UndoAccount(b, c, ch)).storage == SeenOf(b, c).storage[ch.key := ch.value];
    }
  }

  /** One turn of the rollback loop. */
  function UndoChange(b: Backend, s: Store, ch: Change): Store
    requires ch.a in s.cache
  {
    if ch.Create? then s.(cache := s.cache - {ch.a})
    else s.(cache := s.cache[ch.a := UndoAccount(b, s.cache[ch.a], ch)])
  }

  function PopChange(b: Backend, s: Store): Store
    requires s.log != [] && s.log[|s.log| - 1].a in s.cache
  {
    var n := |s.log| - 1;
    UndoChange(b, s, s.log[n]).(log := s.log[..n])
  }

  lemma PopView(b: Backend, s: Store)
    requires Inv(b, s) && s.log != []
    ensures s.log[|s.log| - 1] in s.log
    ensures ViewOf(b, PopChange(b, s)) == Undo(b, ViewOf(b, s), s.log[|s.log| - 1])
  {
    var n := |s.log| - 1;
    var ch := s.log[n];
    assert ch in s.log;
    var s' := PopChange(b, s);
    var v := ViewOf(b, s);
    if ch.Create? {
      assert Rooted(b, v, s.log, n) && s.log[n..] == [ch];
      UndoOne(b, v, ch);
    } else {
      UndoAccountSeen(b, s.cache[ch.a], ch);
    }
    assert ViewOf(b, s') == Undo(b, v, ch);
  }

  /** An undone touch leaves the trie record. */
  lemma TouchUndone(b: Backend, s: Store)
    requires Inv(b, s) && s.log != [] && s.log[|s.log| - 1].Touch?
    ensures var ch := s.log[|s.log| - 1];
            ViewOf(b, s)[ch.a] == InTrie(b, ch.a) && NoEntry(s.log[..|s.log| - 1], ch.a)
  {
    var n := |s.log| - 1;
    assert Rooted(b, ViewOf(b, s), s.log, n);
    assert s.log[n..] == [s.log[n]];
    UndoOne(b, ViewOf(b, s), s.log[n]);
  }

  lemma PopCacheOk(b: Backend, s: Store)
    requires Inv(b, s) && s.log != []
    ensures s.log[|s.log| - 1] in s.log && CacheOk(b, PopChange(b, s))
  {
    var n := |s.log| - 1;
    var ch := s.log[n];
    assert ch in s.log;
    var s' := PopChange(b, s);
    assert forall x :: x in s'.log ==> x in s.log;
    if ch.Touch? { TouchUndone(b, s); }
    forall x | x in s'.cache && s'.cache[x].clean
      ensures At(b, s', x) == InTrie(b, x) && NoEntry(s'.log, x)
    {
      if x == ch.a {
        assert At(b, s', x) == At(b, s, x) == ViewOf(b, s)[x];
      } else {
        assert At(b, s', x) == At(b, s, x);
      }
    }
    forall x | x in s'.log ensures x.a in s'.cache {
      if ch.Create? { assert Rooted(b, ViewOf(b, s), s.log, n); }
    }
  }

  lemma PopHistoryOk(b: Backend, s: Store)
    requires Inv(b, s) && s.log != []
    ensures s.log[|s.log| - 1] in s.log
    ensures HistoryOk(b, ViewOf(b, PopChange(b, s)), s.log[..|s.log| - 1])
  {
    PopView(b, s);
    HistoryShrinks(b, ViewOf(b, s), s.log);
  }

  /** The rollback loop undoes on the cache what it undoes on the view, and clean entries stay honest. */
  lemma PopKeeps(b: Backend, s: Store)
    requires Inv(b, s) && s.log != []
    ensures s.log[|s.log| - 1] in s.log && Inv(b, PopChange(b, s))
  {
    PopCacheOk(b, s);
    PopHistoryOk(b, s);
    assert PopChange(b, s).log == s.log[..|s.log| - 1];
  }
}
