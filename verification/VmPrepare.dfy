/**
 Preparing contract code in place (VM::optimize and verifyJumpDest): the loops
 over the code bytes, proved against the functions of module VmCode.
 */
module VmPrepare {
  import opened Wrappers
  import opened BigEndian
  import opened VmCode
  import opened VmOptimizer

  /** The code after the jump-table loop has passed from `pc` to byte `n`. */
  function Scrub(c: Code, n: nat, pc: nat): (r: Code)
    requires n <= |c|
    ensures |r| == |c|
    decreases n - pc
  {
    if pc >= n then c else Scrub(c[pc := ScrubOp(c[pc])], n, After(c, pc))
  }

  /** The destinations that the loop collects from `pc` to byte `n`, in order. */
  function Dests(c: Code, n: nat, pc: nat): seq<nat>
    requires n <= |c|
    decreases n - pc
  {
    if pc >= n then []
    else if c[pc] == JUMPDEST then [pc] + Dests(c, n, After(c, pc))
    else Dests(c, n, After(c, pc))
  }

  predicate Ascending(s: seq<nat>) { forall i, j :: 0 <= i < j < |s| ==> s[i] < s[j] }

  lemma {:induction false} LandsAgree(c: Code, c': Code, pc: nat, i: nat)
    requires |c| == |c'| && forall k :: pc <= k < |c| ==> c'[k] == c[k]
    ensures Lands(c', pc, i) <==> Lands(c, pc, i)
    decreases i - pc
  {
    if pc < i && pc < |c| { LandsAgree(c, c', After(c, pc), i); }
  }

  lemma {:induction false} ScrubMeaning(c: Code, n: nat, pc: nat, i: nat)
    requires n <= |c| && i < |c|
    ensures Scrub(c, n, pc)[i] == if pc <= i < n && Lands(c, pc, i) then ScrubOp(c[i]) else c[i]
    decreases n - pc
  {
    if pc < n {
      var c' := c[pc := ScrubOp(c[pc])];
      ScrubMeaning(c', n, After(c, pc), i);
      LandsAgree(c, c', After(c, pc), i);
    }
  }

  lemma {:induction false} DestsMeaning(c: Code, n: nat, pc: nat)
    requires n <= |c|
    ensures Ascending(Dests(c, n, pc))
    ensures forall d :: d in Dests(c, n, pc) <==> pc <= d < n && Lands(c, pc, d) && c[d] == JUMPDEST
    decreases n - pc
  {
    if pc < n {
      DestsMeaning(c, n, After(c, pc));
      var rest := Dests(c, n, After(c, pc));
      forall k | 0 <= k < |rest| ensures pc < rest[k] { assert rest[k] in rest; }
    }
  }

  lemma {:induction false} ScrubKeepsDests(c: Code, n: nat, pc: nat, c': Code)
    requires n <= |c| == |c'|
    requires forall i :: pc <= i < |c| ==> c'[i] == c[i] || (c'[i] == BAD && IsSynthetic(c[i]))
    ensures Dests(c', n, pc) == Dests(c, n, pc)
    decreases n - pc
  {
    if pc < n { ScrubKeepsDests(c, n, After(c, pc), c'); }
  }

  lemma ScrubIsScrubbed(c: Code, n: nat)
    requires ZeroTail(c, n)
    ensures IsScrubbed(c, Scrub(c, n, 0)) && ZeroTail(Scrub(c, n, 0), n)
  {
    var s := Scrub(c, n, 0);
    forall i | 0 <= i < |c| ensures s[i] == if Starts(c, i) then ScrubOp(c[i]) else c[i] {
      ScrubMeaning(c, n, 0, i);
    }
  }

  lemma DestsAreValid(u: Code)
    ensures forall d :: d in Dests(Padded(u), |u|, 0) <==> d in ValidDests(u, 0)
  {
    DestsMeaning(Padded(u), |u|, 0);
    forall d: nat ensures d in Dests(Padded(u), |u|, 0) <==> d in ValidDests(u, 0) {
      ValidDestsFrom(u, 0, d);
      if d < |u| { PaddedLands(u, 0, d); }
    }
  }

  lemma ScrubbedIsPrepared(c: Code, n: nat)
    requires ZeroTail(c, n)
    ensures Prepared(Scrub(c, n, 0), Dests(c, n, 0), n)
  {
    var s := Scrub(c, n, 0);
    ScrubIsScrubbed(c, n);
    DestsMeaning(c, n, 0);
    forall i: nat ensures Starts(s, i) <==> Starts(c, i) { ScrubbedLands(c, s, 0, i); }
  }

  /** What the jump-table loop leaves is prepared code, and its table lists the user code's valid destinations. */
  lemma ScrubPrepares(u: Code)
    ensures Prepared(Scrub(Padded(u), |u|, 0), Dests(Padded(u), |u|, 0), |u|)
    ensures Ascending(Dests(Padded(u), |u|, 0))
    ensures forall d :: d in Dests(Padded(u), |u|, 0) <==> d in ValidDests(u, 0)
  {
    ScrubbedIsPrepared(Padded(u), |u|);
    DestsMeaning(Padded(u), |u|, 0);
    DestsAreValid(u);
  }

  /** One more byte of the constant. */
  lemma NextByte(c: Code, pc: nat, i: nat)
    requires pc + 2 <= i < |c|
    ensures FromBytes(c[pc + 1..i + 1]) == FromBytes(c[pc + 1..i]) * 256 + c[i]
    ensures Hash(c[pc + 2..i + 1]) == HashByte(Hash(c[pc + 2..i]), c[i])
  {
    assert c[pc + 1..i + 1][..i - pc - 1] == c[pc + 1..i];
    assert c[pc + 2..i + 1][..i - pc - 2] == c[pc + 2..i];
  }

  class Interpreter {
    var code: array<byte>
    var jumpDests: seq<nat>
    var pool: Pool

    constructor ()
      ensures fresh(code)
    {
      code := new byte[0];
      jumpDests := [];
      pool := seq(256, _ => None);
    }

    method CopyCode(user: Code)
      modifies this`code
      ensures fresh(code) && code[..] == Padded(user)
    {
      var padded := Padded(user);
      code := new byte[|padded|](i requires 0 <= i < |padded| => padded[i]);
    }

    /** Collects the jump destinations and makes synthetic instructions of the user code invalid. */
    method BuildJumpTable(n: nat)
      requires n <= code.Length
      modifies code, this`jumpDests
      ensures code[..] == old(Scrub(code[..], n, 0))
      ensures jumpDests == old(Dests(code[..], n, 0))
    {
      jumpDests := [];
      var pc := 0;
      ghost var c := code[..];
      while pc < n
        invariant code.Length == |c|
        invariant forall i :: pc <= i < |c| ==> code[i] == c[i]
        invariant Scrub(code[..], n, pc) == Scrub(c, n, 0)
        invariant jumpDests + Dests(c, n, pc) == Dests(c, n, 0)
        decreases n - pc
      {
        var op := code[pc];
        ghost var before := code[..];
        if op == PUSHC || op == JUMPC || op == JUMPCI {
          code[pc] := BAD;
        }
        assert code[..] == before[pc := ScrubOp(op)];
        if op == JUMPDEST {
          jumpDests := jumpDests + [pc];
        } else if PUSH1 <= op <= PUSH32 {
          pc := pc + (op - PUSH1 + 1);
        }
        pc := pc + 1;
      }
    }

    /** -1 for a destination that is not in the table. */
    method VerifyJumpDest(dest: nat) returns (r: int)
      requires Ascending(jumpDests)
      ensures r == if ValidDest(jumpDests, dest) then dest else -1
    {
      if dest <= MAX_DEST {
        var lo, hi := 0, |jumpDests|;
        while lo < hi
          invariant 0 <= lo <= hi <= |jumpDests|
          invariant forall k :: 0 <= k < lo ==> jumpDests[k] < dest
          invariant forall k :: hi <= k < |jumpDests| ==> jumpDests[k] > dest
        {
          var mid := (lo + hi) / 2;
          if jumpDests[mid] == dest {
            return dest;
          } else if jumpDests[mid] < dest {
            lo := mid + 1;
          } else {
            hi := mid;
          }
        }
      }
      r := -1;
    }

    /** Decodes the constant of the PUSH at `pc` and hashes all its bytes but the first. */
    method Decode(pc: nat) returns (val: nat, hash: byte)
      requires pc < code.Length && IsPush(code[pc]) && After(code[..], pc) <= code.Length
      ensures val == PushValue(code[..], pc) && hash == Slot(code[..], pc)
    {
      ghost var c := code[..];
      var nPush := code[pc] - PUSH1 + 1;
      val := code[pc + 1];
      var h := FNV_OFFSET;
      var i := pc + 2;
      assert c[pc + 1..i] == [c[pc + 1]] && c[pc + 2..i] == [];
      while i < pc + 1 + nPush
        invariant pc + 2 <= i <= pc + 1 + nPush
        invariant val == FromBytes(c[pc + 1..i])
        invariant h == Hash(c[pc + 2..i])
      {
        NextByte(c, pc, i);
        val := val * 256 + code[i];
        h := HashByte(h, code[i]);
        i := i + 1;
      }
      hash := Fold(h);
    }

    method PoolConstant(pc: nat, val: nat, hash: byte)
      requires pc < code.Length && IsPush(code[pc]) && After(code[..], pc) <= code.Length
      requires val == PushValue(code[..], pc) && hash == Slot(code[..], pc)
      modifies code, this`pool
      ensures (code[..], pool) == PoolPush(old(code[..]), old(pool), pc)
    {
      ghost var c := code[..];
      var nPush := code[pc] - PUSH1 + 1;
      if nPush > 1 && (pool[hash] == None || pool[hash] == Some(val)) {
        pool := pool[hash := Some(val)];
        code[pc] := PUSHC;
        code[pc + 1] := hash;
        code[pc + 2] := nPush - 1;
        assert code[..] == PoolPush(c, old(pool), pc).0;
      }
    }

    method ReplaceConstJump(i: nat, val: nat)
      requires i < code.Length && Ascending(jumpDests)
      modifies code
      ensures code[..] == ConstJump(old(code[..]), jumpDests, i, val)
    {
      ghost var c := code[..];
      if code[i] == JUMP {
        var dest := VerifyJumpDest(val);
        if dest >= 0 { code[i] := JUMPC; assert code[..] == c[i := JUMPC]; }
      } else if code[i] == JUMPI {
        var dest := VerifyJumpDest(val);
        if dest >= 0 { code[i] := JUMPCI; assert code[..] == c[i := JUMPCI]; }
      }
    }

    /** Replaces constant pushes and the constant jumps behind them. */
    method FirstPass(n: nat)
      requires code.Length == n + PADDING && Ascending(jumpDests)
      modifies code, this`pool
      ensures (code[..], pool) == Pass(old(code[..]), seq(256, _ => None), jumpDests, n, 0)
    {
      pool := seq(256, _ => None);
      var pc := 0;
      ghost var all := Pass(code[..], pool, jumpDests, n, 0);
      while pc < n
        invariant Pass(code[..], pool, jumpDests, n, pc) == all
        decreases n - pc
      {
        var op := code[pc];
        if IsPush(op) {
          var nPush := op - PUSH1 + 1;
          var val, hash := Decode(pc);
          PoolConstant(pc, val, hash);
          ReplaceConstJump(pc + nPush + 1, val);
          pc := pc + nPush;
        }
        pc := pc + 1;
      }
    }

    /** The code, pool and jump table that a run starts from. */
    method Optimize(user: Code)
      modifies this
      ensures Prepared(Scrub(Padded(user), |user|, 0), jumpDests, |user|)
      ensures Program(code[..], pool, jumpDests) == Optimized(Scrub(Padded(user), |user|, 0), jumpDests, |user|)
      ensures Ascending(jumpDests) && forall d :: d in jumpDests <==> d in ValidDests(user, 0)
    {
      CopyCode(user);
      BuildJumpTable(|user|);
      ScrubPrepares(user);
      FirstPass(|user|);
    }

    /**
     A computed jump in freshly prepared code: it goes where the user
     code has a valid destination, and only there.
     */
    method CheckJump(user: Code, dest: nat) returns (r: int)
      modifies this
      ensures r == if dest <= MAX_DEST && dest in ValidDests(user, 0) then dest else -1
    {
      Optimize(user);
      r := VerifyJumpDest(dest);
    }
  }
}
