/**
 The account cache and change log as the source keeps them (class State of
 libcv/State.cpp): every method loads through the cache, may evict clean
 entries on the way, and is proved to do to the visible state and to the log
 what the operations of module StateJournal say.
 */
module StateCache {
  import opened Wrappers
  import opened StateJournal

  /** clearCacheIfTooLarge keeps at most this many evictable entries. */
  const MAX_UNCHANGED := 1000

  predicate IsEmpty(b: Backend, c: Account) {
    c.nonce == 0 && c.balance == 0 && c.codeHash == b.EmptySha3()
  }

  /** A new account starts dirty. */
  function Created(b: Backend, nonce: U256, balance: U256): Account {
    Account(false, false, nonce, balance, b.emptyTrie, b.EmptySha3(), map[], [])
  }

  datatype Outcome = Done | NotEnoughCash

  class State {
    const back: Backend
    var cache: map<Address, Account>
    var unchangedEntries: seq<Address>
    var absent: set<Address>
    var changeLog: seq<Change>

    ghost function Now(): Store
      reads this
    {
      Store(cache, absent, changeLog)
    }

    ghost predicate Valid()
      reads this
    {
      Inv(back, Now())
    }

    ghost function Visible(): World
      reads this
    {
      World(ViewOf(back, Now()), changeLog)
    }

    /** The account is there, empty and untouched, so that the next balance change is logged as a touch. */
    ghost predicate Untouched(a: Address)
      reads this
    {
      if a in cache then cache[a].clean && IsEmpty(back, cache[a])
      else a in back.accounts && IsEmpty(back, FromRecord(back.accounts[a]))
    }

    constructor (back: Backend)
      ensures this.back == back && Valid() && changeLog == []
      ensures forall a: Address :: Visible().view[a] == InTrie(back, a)
      ensures Mirrors(back, Visible().view)
    {
      this.back := back;
      cache, unchangedEntries, absent, changeLog := map[], [], {}, [];
    }

    /** Drops random evictable entries, but never a dirty one. */
    method ClearCacheIfTooLarge()
      modifies this`cache, this`unchangedEntries
      ensures forall x :: x in cache ==> x in old(cache) && cache[x] == old(cache)[x]
      ensures forall x :: x in old(cache) && !old(cache)[x].clean ==> x in cache
      ensures |unchangedEntries| <= MAX_UNCHANGED || unchangedEntries == old(unchangedEntries)
    {
      while |unchangedEntries| > MAX_UNCHANGED
        invariant forall x :: x in cache ==> x in old(cache) && cache[x] == old(cache)[x]
        invariant forall x :: x in old(cache) && !old(cache)[x].clean ==> x in cache
        decreases |unchangedEntries|
      {
        var last := |unchangedEntries| - 1;
        var i :| 0 <= i < |unchangedEntries|;
        var addr := unchangedEntries[i];
        unchangedEntries := unchangedEntries[i := unchangedEntries[last]][..last];
        if addr in cache && cache[addr].clean {
          cache := cache - {addr};
        }
      }
    }

    /** account(): the entry of `a`, read in from the trie if need be. */
    method Load(a: Address) returns (found: bool)
      requires Valid()
      modifies this
      ensures Valid() && Visible() == old(Visible())
      ensures found <==> a in cache
      ensures found <==> old(Visible()).view[a].Some?
      ensures Untouched(a) == old(Untouched(a))
      ensures a in old(cache) ==> a in cache && cache[a] == old(cache)[a]
    {
      ghost var s := Now();
      if a in cache { return true; }
      if a in absent { return false; }
      if a !in back.accounts {
        absent := absent + {a};
        LoadKeeps(back, s, Now(), a);
        return false;
      }
      ClearCacheIfTooLarge();
      cache := cache[a := FromRecord(back.accounts[a])];
      unchangedEntries := unchangedEntries + [a];
      LoadKeeps(back, s, Now(), a);
      found := true;
    }

    /** createAccount(): a new dirty entry. */
    method CreateAccount(a: Address, nonce: U256, balance: U256)
      requires Valid() && Visible().view[a].None? && a !in cache
      modifies this
      ensures Valid()
      ensures Visible() ==
                World(old(Visible()).view[a := Some(Fresh(back, nonce, balance))], old(changeLog) + [Create(a)])
      ensures Now() == Put(old(Now()), a, Created(back, nonce, balance), [Create(a)])
    {
      ghost var s := Now();
      var c := Created(back, nonce, balance);
      cache := cache[a := c];
      absent := absent - {a};
      changeLog := changeLog + [Create(a)];
      PutView(back, s, a, c, [Create(a)]);
      assert SeenOf(back, c) == Fresh(back, nonce, balance);
      NewHasNoEntry(s, a);
      CreateUndoes(back, World(ViewOf(back, s), s.log), a, SeenOf(back, c));
      PutKeeps(back, s, a, c, [Create(a)]);
    }

    /** An address that is not cached has no log entries. */
    lemma NewHasNoEntry(s: Store, a: Address)
      requires Inv(back, s) && a !in s.cache
      ensures NoEntry(s.log, a)
    {
    }

    method CreateContract(a: Address)
      requires Valid() && Visible().view[a].None?
      modifies this
      ensures Valid() && Visible() == Apply(back, old(Visible()), 0, Op.CreateContract(a))
      ensures Appeared(back, old(Visible()).view, Visible().view, a, 0, back.startNonce)
    {
      var found := Load(a);
      CreateAccount(a, back.startNonce, 0);
    }

    method IncNonce(a: Address)
      requires Valid()
      modifies this
      ensures Valid() && Visible() == Apply(back, old(Visible()), 0, Op.IncNonce(a))
      ensures var v := old(Visible()).view;
              if v[a].Some? then Counted(v, Visible().view, a, v[a].value.balance, (v[a].value.nonce + 1) % W)
              else Appeared(back, v, Visible().view, a, 0, (back.startNonce + 1) % W)
    {
      IncNonceMeans(back, Visible(), 0, a);
      var found := Load(a);
      if found {
        BumpNonce(a);
      } else {
        CreateAccount(a, Add(back.startNonce, 1), 0);
      }
    }

    method BumpNonce(a: Address)
      requires Valid() && a in cache
      modifies this`cache, this`changeLog
      ensures Valid() && Visible() == Apply(back, old(Visible()), 0, Op.IncNonce(a))
    {
      ghost var s := Now();
      var c := cache[a].(nonce := Add(cache[a].nonce, 1), clean := false);
      AddNeg(cache[a].nonce, 1);
      WriteKeeps(back, s, a, c, Nonce(a));
      cache := cache[a := c];
      changeLog := changeLog + [Nonce(a)];
      assert Now() == Put(s, a, c, [Nonce(a)]);
    }

    method AddBalance(a: Address, amount: U256)
      requires Valid()
      modifies this
      ensures Valid() && Visible() == Apply(back, old(Visible()), 0, Op.AddBalance(a, amount, old(Untouched(a))))
      ensures var v := old(Visible()).view;
              if v[a].Some? then Counted(v, Visible().view, a, (v[a].value.balance + amount) % W, v[a].value.nonce)
              else Appeared(back, v, Visible().view, a, amount, back.startNonce)
    {
      AddBalanceMeans(back, Visible(), 0, a, amount, Untouched(a));
      var found := Load(a);
      if found {
        MoveBalance(a, amount);
      } else {
        ghost var s := Now();
        CreateAccount(a, back.startNonce, amount);
        if amount != 0 {
          changeLog := changeLog + [Balance(a, amount)];
          FirstBalanceKeeps(back, s, a, amount);
          assert Now() == Put(s, a, Created(back, back.startNonce, amount), [Create(a), Balance(a, amount)]);
        }
      }
    }

    /** The balance of a cached account changes; an empty account that was clean is touched first. */
    method MoveBalance(a: Address, amount: U256)
      requires Valid() && a in cache
      modifies this`cache, this`changeLog
      ensures Valid() && Visible() == Apply(back, old(Visible()), 0, Op.AddBalance(a, amount, old(Untouched(a))))
    {
      ghost var s := Now();
      var c := cache[a];
      var touch := c.clean && IsEmpty(back, c);
      ghost var s' := Put(s, a, Moved(c, amount), Moves(a, amount, touch));
      assert Inv(back, s') by { MoveKeeps(back, s, a, amount, touch); }
      MoveApplies(back, s, a, amount, touch);
      if touch {
        changeLog := changeLog + [Touch(a)];
      }
      cache := cache[a := c.(balance := Add(c.balance, amount), clean := false)];
      if amount != 0 {
        changeLog := changeLog + [Balance(a, amount)];
      }
      assert Now() == s';
    }

    method GetBalance(a: Address) returns (balance: U256)
      requires Valid()
      modifies this
      ensures Valid() && Visible() == old(Visible())
      ensures balance == if Visible().view[a].Some? then Visible().view[a].value.balance else 0
      ensures Untouched(a) == old(Untouched(a))
    {
      var found := Load(a);
      balance := if found then cache[a].balance else 0;
    }

    /** Fails without any visible change if the account cannot pay. */
    method SubBalance(a: Address, amount: U256) returns (r: Outcome)
      requires Valid()
      modifies this
      ensures Valid()
      ensures r == NotEnoughCash <==>
                (amount != 0 && (old(Visible()).view[a].None? || old(Visible()).view[a].value.balance < amount))
      ensures r == NotEnoughCash || amount == 0 ==> Visible() == old(Visible())
      ensures r == Done && amount != 0 ==>
                Visible() == Apply(back, old(Visible()), 0, Op.AddBalance(a, Neg(amount), old(Untouched(a))))
      ensures r == Done && amount != 0 ==>
                var v := old(Visible()).view;
                v[a].Some? && Counted(v, Visible().view, a, v[a].value.balance - amount, v[a].value.nonce)
    {
      if amount == 0 { return Done; }
      var found := Load(a);
      if !found || cache[a].balance < amount { return NotEnoughCash; }
      TakeBalanceMeans(back, Visible(), 0, a, amount, Untouched(a));
      AddBalance(a, Neg(amount));
      r := Done;
    }

    /** storage(): the overlay first, then the trie, and the value read is kept in the overlay. */
    method GetStorage(a: Address, key: U256) returns (value: U256)
      requires Valid()
      modifies this
      ensures Valid() && Visible() == old(Visible())
      ensures value == if Visible().view[a].Some? then Visible().view[a].value.storage[key] else 0
      ensures Visible().view[a].Some? <==> a in cache
    {
      var found := Load(a);
      if !found { return 0; }
      if key in cache[a].overlay { return cache[a].overlay[key]; }
      value := back.Slot(cache[a].root, key);
      Remember(a, key, value);
    }

    /** What the trie holds for a key is kept in the overlay. */
    method Remember(a: Address, key: U256, value: U256)
      requires Valid() && a in cache && key !in cache[a].overlay && value == back.Slot(cache[a].root, key)
      modifies this`cache
      ensures Valid() && Visible() == old(Visible()) && a in cache
    {
      ghost var s := Now();
      var c := cache[a].(overlay := cache[a].overlay[key := value]);
      assert SeenOf(back, c).storage == SeenOf(back, cache[a]).storage;
      PutSame(back, s, a, c);
      cache := cache[a := c];
      assert Now() == Put(s, a, c, []);
    }

    method SetStorage(a: Address, key: U256, value: U256)
      requires Valid() && Visible().view[a].Some?
      modifies this
      ensures Valid() && Visible() == Apply(back, old(Visible()), 0, Op.SetStorage(a, key, value))
      ensures Written(old(Visible()).view, Visible().view, a, key, value)
    {
      var before := GetStorage(a, key);
      WriteSlot(a, key, value, before);
    }

    /** What a write puts into a slot is what a read of it gets, and no other slot is touched. */
    method ReadBack(a: Address, key: U256, value: U256, other: U256) returns (r: U256)
      requires Valid() && Visible().view[a].Some?
      modifies this
      ensures Valid() && r == if other == key then value else old(Visible()).view[a].value.storage[other]
    {
      SetStorage(a, key, value);
      r := GetStorage(a, other);
    }

    method WriteSlot(a: Address, key: U256, value: U256, before: U256)
      requires Valid() && a in cache && SeenOf(back, cache[a]).storage[key] == before
      modifies this`cache, this`changeLog
      ensures Valid() && Visible() == Apply(back, old(Visible()), 0, Op.SetStorage(a, key, value))
    {
      ghost var s := Now();
      var c := cache[a].(overlay := cache[a].overlay[key := value], clean := false);
      ghost var x := SeenOf(back, cache[a]);
      assert SeenOf(back, c).storage == x.storage[key := value];
      assert x.storage[key := value][key := before] == x.storage;
      WriteKeeps(back, s, a, c, Storage(a, key, before));
      changeLog := changeLog + [Storage(a, key, before)];
      cache := cache[a := c];
      assert Now() == Put(s, a, c, [Storage(a, key, before)]);
    }

    /** code(): loads the code of a hash into the entry when first asked for. */
    method GetCode(a: Address) returns (code: Bytes)
      requires Valid()
      modifies this
      ensures Valid() && Visible() == old(Visible())
      ensures code == if Visible().view[a].Some? then Visible().view[a].value.code else []
    {
      var found := Load(a);
      if !found || cache[a].codeHash == back.EmptySha3() { return []; }
      if cache[a].code == [] {
        ghost var s := Now();
        var c := cache[a].(code := back.Lookup(cache[a].codeHash));
        PutSame(back, s, a, c);
        cache := cache[a := c];
        assert Now() == Put(s, a, c, []);
      }
      code := cache[a].code;
    }

    /** setNewCode() writes past the cache and does not mark the entry: it is for dirty accounts without code. */
    method SetNewCode(a: Address, code: Bytes)
      requires Valid() && a in cache && !cache[a].clean && cache[a].codeHash == back.EmptySha3()
      modifies this
      ensures Valid() && Visible() == Apply(back, old(Visible()), 0, Op.SetNewCode(a, code))
      ensures CodeSet(back, old(Visible()).view, Visible().view, a, code)
    {
      ghost var s := Now();
      var c := cache[a].(code := code, newCode := true, codeHash := back.sha3(code));
      WriteKeeps(back, s, a, c, NewCode(a));
      cache := cache[a := c];
      changeLog := changeLog + [NewCode(a)];
      assert Now() == Put(s, a, c, [NewCode(a)]);
    }

    method Savepoint() returns (point: nat)
      requires Valid()
      ensures point == |changeLog|
    {
      point := |changeLog|;
    }

    /** Takes back the last change. */
    method PopLast()
      requires Valid() && changeLog != []
      modifies this
      ensures old(changeLog)[|old(changeLog)| - 1].a in old(cache) && Now() == PopChange(back, old(Now()))
    {
      var n := |changeLog| - 1;
      var change := changeLog[n];
      assert change in changeLog;
      match change {
        case Storage(a, key, value) =>
          cache := cache[a := cache[a].(overlay := cache[a].overlay[key := value], clean := false)];
        case Balance(a, amount) =>
          cache := cache[a := cache[a].(balance := Add(cache[a].balance, Neg(amount)), clean := false)];
        case Nonce(a) =>
          cache := cache[a := cache[a].(nonce := Add(cache[a].nonce, Neg(1)), clean := false)];
        case Create(a) =>
          cache := cache - {a};
        case NewCode(a) =>
          cache := cache[a := cache[a].(code := [], newCode := false, codeHash := back.EmptySha3())];
        case Touch(a) =>
          cache := cache[a := cache[a].(clean := true)];
          unchangedEntries := unchangedEntries + [a];
      }
      changeLog := changeLog[..n];
    }

    /** Pops and undoes changes down to a savepoint. */
    method Rollback(point: nat)
      requires Valid() && point <= |changeLog|
      modifies this
      ensures Valid() && Visible() == RollbackTo(back, old(Visible()), point)
    {
      while point != |changeLog|
        invariant point <= |changeLog| && Valid()
        invariant RollbackTo(back, Visible(), point) == RollbackTo(back, old(Visible()), point)
        decreases |changeLog|
      {
        PopKeeps(back, Now());
        PopRollsBack(back, Now(), point);
        PopLast();
      }
      assert changeLog[point..] == [] && changeLog[..point] == changeLog;
    }
  }

  /** Taking back the last change leaves less to roll back. */
  lemma PopRollsBack(b: Backend, s: Store, point: nat)
    requires Inv(b, s) && point < |s.log|
    ensures s.log[|s.log| - 1] in s.log
    ensures RollbackTo(b, World(ViewOf(b, PopChange(b, s)), PopChange(b, s).log), point)
         == RollbackTo(b, World(ViewOf(b, s), s.log), point)
  {
    var n := |s.log| - 1;
    PopView(b, s);
    assert s.log[point..][..n - point] == s.log[..n][point..];
    assert s.log[..n][..point] == s.log[..point];
  }

  /** The write and the log entry of an existing account, with what the entry must undo. */
  lemma WriteKeeps(b: Backend, s: Store, a: Address, c: Account, ch: Change)
    requires Inv(b, s) && a in s.cache && !c.clean && ch.a == a && !ch.Create? && !ch.Touch?
    requires UndoSeen(b, SeenOf(b, c), ch) == SeenOf(b, s.cache[a])
    ensures a !in s.absent && Inv(b, Put(s, a, c, [ch]))
    ensures ViewOf(b, Put(s, a, c, [ch])) == ViewOf(b, s)[a := Some(SeenOf(b, c))]
  {
    PutView(b, s, a, c, [ch]);
    ChangeUndoes(b, World(ViewOf(b, s), s.log), ch, SeenOf(b, c));
    assert (s.log + [ch])[|s.log|..] == [ch];
    PutKeeps(b, s, a, c, [ch]);
  }

  function Moves(a: Address, amount: U256, touch: bool): seq<Change> {
    (if touch then [Touch(a)] else []) + (if amount == 0 then [] else [Balance(a, amount)])
  }

  function Moved(c: Account, amount: U256): Account {
    c.(balance := Add(c.balance, amount), clean := false)
  }

  lemma MoveUndone(b: Backend, s: Store, a: Address, amount: U256, touch: bool)
    requires a in s.cache
    ensures var s' := Put(s, a, Moved(s.cache[a], amount), Moves(a, amount, touch));
            UndoAll(b, ViewOf(b, s'), Moves(a, amount, touch)) == ViewOf(b, s)
  {
    var c := Moved(s.cache[a], amount);
    PutView(b, s, a, c, Moves(a, amount, touch));
    var v := ViewOf(b, s);
    assert SeenOf(b, c) == v[a].value.(balance := Add(v[a].value.balance, amount));
    var touched, moved := if touch then [Touch(a)] else [], if amount == 0 then [] else [Balance(a, amount)];
    UndoBalance(b, World(v, s.log), a, amount, touched, moved);
  }

  lemma MoveApplies(b: Backend, s: Store, a: Address, amount: U256, touch: bool)
    requires a in s.cache
    ensures var s' := Put(s, a, Moved(s.cache[a], amount), Moves(a, amount, touch));
            World(ViewOf(b, s'), s'.log) == Apply(b, World(ViewOf(b, s), s.log), 0, AddBalance(a, amount, touch))
  {
    var c := Moved(s.cache[a], amount);
    var first, moved := if touch then [Touch(a)] else [], if amount == 0 then [] else [Balance(a, amount)];
    PutView(b, s, a, c, first + moved);
    assert s.log + first + moved == s.log + (first + moved);
  }

  lemma MoveKeeps(b: Backend, s: Store, a: Address, amount: U256, touch: bool)
    requires Inv(b, s) && a in s.cache && (touch ==> s.cache[a].clean)
    ensures a !in s.absent && Inv(b, Put(s, a, Moved(s.cache[a], amount), Moves(a, amount, touch)))
  {
    MoveUndone(b, s, a, amount, touch);
    PutKeeps(b, s, a, Moved(s.cache[a], amount), Moves(a, amount, touch));
  }

  /** A new account's starting balance is logged once more as a balance change. */
  lemma FirstBalanceKeeps(b: Backend, s: Store, a: Address, amount: U256)
    requires Inv(b, s) && a !in s.cache && At(b, s, a).None? && amount != 0
    ensures var s' := Put(s, a, Created(b, b.startNonce, amount), [Create(a), Balance(a, amount)]);
            Inv(b, s') && World(ViewOf(b, s'), s'.log) ==
                Apply(b, World(ViewOf(b, s), s.log), 0, AddBalance(a, amount, false))
  {
    var c := Created(b, b.startNonce, amount);
    var added := [Create(a), Balance(a, amount)];
    assert added == [Create(a)] + [Balance(a, amount)];
    PutView(b, s, a, c, added);
    assert SeenOf(b, c) == Fresh(b, b.startNonce, amount);
    UndoBalance(b, World(ViewOf(b, s), s.log), a, amount, [Create(a)], [Balance(a, amount)]);
    PutKeeps(b, s, a, c, added);
    assert s.log + [Create(a)] + [Balance(a, amount)] == s.log + added;
  }
}
