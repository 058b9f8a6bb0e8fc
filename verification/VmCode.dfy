/**
 Contract code as the interpreter prepares it (cvvm/VMOpt.cpp): padding,
 the table of jump destinations, the scrubbing of synthetic instructions, and
 the first pass that pools constants and pre-verifies constant jumps.
 */
module VmCode {
  import opened Wrappers
  import opened BigEndian

  const JUMP: byte := 0x56
  const JUMPI: byte := 0x57
  const JUMPDEST: byte := 0x5b
  const PUSH1: byte := 0x60
  const PUSH32: byte := 0x7f
  const PUSHC: byte := 0xac
  const JUMPC: byte := 0xad
  const JUMPCI: byte := 0xae
  const BAD: byte := 0xaf

  /** Zero bytes that copyCode puts behind the code. */
  const PADDING := 33
  const MAX_DEST := 0x7FFF_FFFF_FFFF_FFFF

  type Code = seq<byte>
  type Pool = p: seq<Option<nat>> | |p| == 256 witness seq(256, _ => None)

  predicate IsPush(op: byte) { PUSH1 <= op <= PUSH32 }

  predicate IsSynthetic(op: byte) { op == PUSHC || op == JUMPC || op == JUMPCI }

  /** Bytes of immediate data behind the opcode. */
  function Immediate(op: byte): nat { if IsPush(op) then op - PUSH1 + 1 else 0 }

  function After(c: Code, pc: nat): nat
    requires pc < |c|
  {
    pc + 1 + Immediate(c[pc])
  }

  /** Walking instruction by instruction from `pc` lands on `i`. */
  predicate Lands(c: Code, pc: nat, i: nat)
    decreases i - pc
  {
    pc == i || (pc < i && pc < |c| && Lands(c, After(c, pc), i))
  }

  /** `i` is where an instruction starts. */
  predicate Starts(c: Code, i: nat) { Lands(c, 0, i) }

  /** The valid destinations, as section 9.4.3 of the Ethereum Yellow Paper defines them, from `i` on. */
  ghost function ValidDests(c: Code, i: nat): set<nat>
    decreases |c| - i
  {
    if i >= |c| then {}
    else if c[i] == JUMPDEST then {i} + ValidDests(c, After(c, i))
    else ValidDests(c, After(c, i))
  }

  // ----- Instruction starts -----

  lemma {:induction false} LandsStep(c: Code, pc: nat, i: nat)
    requires Lands(c, pc, i) && i < |c|
    ensures Lands(c, pc, After(c, i))
    decreases i - pc
  {
    if pc == i {
      assert Lands(c, After(c, i), After(c, i));
    } else {
      LandsStep(c, After(c, pc), i);
    }
  }

  lemma {:induction false} LandsMeets(c: Code, pc: nat, p: nat, q: nat)
    requires Lands(c, pc, p) && Lands(c, pc, q) && p < q
    ensures p < |c| && Lands(c, After(c, p), q)
    decreases p - pc
  {
    if pc < p { LandsMeets(c, After(c, pc), p, q); }
  }

  /** An instruction that starts later starts behind the immediate data of this one. */
  lemma StartsApart(c: Code, p: nat, q: nat)
    requires Starts(c, p) && Starts(c, q) && p < q
    ensures p < |c| && After(c, p) <= q
  {
    LandsMeets(c, 0, p, q);
  }

  lemma {:induction false} LandsPrevious(c: Code, pc: nat, i: nat) returns (p: nat)
    requires Lands(c, pc, i) && pc < i
    ensures p < i && p < |c| && Lands(c, pc, p) && After(c, p) == i
    decreases i - pc
  {
    if After(c, pc) == i {
      p := pc;
    } else {
      p := LandsPrevious(c, After(c, pc), i);
    }
  }

  /** Where no instruction starts, some earlier instruction's immediate data lies. */
  lemma {:induction false} LandsOrInside(c: Code, pc: nat, i: nat) returns (p: nat)
    requires pc <= i < |c| && !Lands(c, pc, i)
    ensures p < i && Lands(c, pc, p) && p < i < After(c, p)
    decreases i - pc
  {
    if After(c, pc) > i {
      p := pc;
    } else {
      p := LandsOrInside(c, After(c, pc), i);
    }
  }

  predicate InPushData(c: Code, i: nat) {
    exists p :: 0 <= p < i && p < |c| && Starts(c, p) && i < After(c, p)
  }

  /** A byte is an instruction exactly when it is not push data. */
  lemma StartsIffOutsideData(c: Code, i: nat)
    requires i < |c|
    ensures Starts(c, i) <==> !InPushData(c, i)
  {
    if Starts(c, i) {
      forall p | 0 <= p < i && p < |c| && Starts(c, p) ensures After(c, p) <= i { StartsApart(c, p, i); }
    } else {
      var p := LandsOrInside(c, 0, i);
    }
  }

  lemma {:induction false} ValidDestsFrom(c: Code, from: nat, d: nat)
    ensures d in ValidDests(c, from) <==> d < |c| && Lands(c, from, d) && c[d] == JUMPDEST
    decreases |c| - from
  {
    if from < |c| {
      ValidDestsFrom(c, After(c, from), d);
    }
  }

  /** The valid destinations are the JUMPDEST bytes that are not push data. */
  lemma ValidDestsMeaning(c: Code, d: nat)
    ensures d in ValidDests(c, 0) <==> d < |c| && c[d] == JUMPDEST && !InPushData(c, d)
  {
    ValidDestsFrom(c, 0, d);
    if d < |c| { StartsIffOutsideData(c, d); }
  }

  /** Every instruction of the code ends at most 32 bytes behind it, and a trailing PUSH32 needs all of them. */
  lemma StartsBound(c: Code, i: nat)
    requires Starts(c, i)
    ensures i <= |c| + 32
    ensures Starts([PUSH32], |[PUSH32]| + 32)
  {
    if i > 0 { var p := LandsPrevious(c, 0, i); }
    assert Lands([PUSH32], 33, 33);
  }

  // ----- Scrubbing -----

  function ScrubOp(op: byte): byte { if IsSynthetic(op) then BAD else op }

  /** User code with every synthetic instruction made invalid; push data is left as it is. */
  ghost predicate IsScrubbed(c: Code, s: Code) {
    |s| == |c| && forall i :: 0 <= i < |c| ==> s[i] == if Starts(c, i) then ScrubOp(c[i]) else c[i]
  }

  lemma {:induction false} ScrubbedLands(c: Code, s: Code, pc: nat, i: nat)
    requires IsScrubbed(c, s) && Starts(c, pc)
    ensures Lands(s, pc, i) <==> Lands(c, pc, i)
    decreases i - pc
  {
    if pc < i && pc < |c| {
      LandsStep(c, 0, pc);
      ScrubbedLands(c, s, After(c, pc), i);
    }
  }

  function Padded(c: Code): Code { c + seq(PADDING, _ => 0) }

  /** Padding does not move instruction starts up to the end of the code. */
  lemma {:induction false} PaddedLands(c: Code, pc: nat, i: nat)
    requires i < |c| || Lands(c, pc, i)
    ensures Lands(Padded(c), pc, i) <==> Lands(c, pc, i)
    decreases i - pc
  {
    if pc < i && pc < |c| {
      PaddedLands(c, After(c, pc), i);
    }
  }

  // ----- The first pass -----

  const FNV_OFFSET: bv32 := 2166136261
  const FNV_PRIME: bv32 := 16777619

  function HashByte(h: bv32, b: byte): bv32 { (h ^ (b as bv32)) * FNV_PRIME }

  function Hash(data: Code): bv32 {
    if data == [] then FNV_OFFSET else HashByte(Hash(data[..|data| - 1]), data[|data| - 1])
  }

  function Fold(h: bv32): byte { (((h >> 8) ^ h) & 0xff) as nat % 256 }

  /** The value pushed by the PUSH instruction at `pc`. */
  function PushValue(c: Code, pc: nat): nat
    requires pc < |c| && After(c, pc) <= |c|
  {
    FromBytes(c[pc + 1..After(c, pc)])
  }

  /** The pool slot of the constant: its first byte is not hashed. */
  function Slot(c: Code, pc: nat): byte
    requires pc < |c| && IsPush(c[pc]) && After(c, pc) <= |c|
  {
    Fold(Hash(c[pc + 2..After(c, pc)]))
  }

  predicate Poolable(c: Code, pool: Pool, pc: nat)
    requires pc < |c| && IsPush(c[pc]) && After(c, pc) <= |c|
  {
    Immediate(c[pc]) > 1 && (pool[Slot(c, pc)] == None || pool[Slot(c, pc)] == Some(PushValue(c, pc)))
  }

  function PoolPush(c: Code, pool: Pool, pc: nat): (Code, Pool)
    requires pc < |c| && IsPush(c[pc]) && After(c, pc) <= |c|
  {
    if Poolable(c, pool, pc)
    then (c[pc := PUSHC][pc + 1 := Slot(c, pc)][pc + 2 := Immediate(c[pc]) - 1],
          pool[Slot(c, pc) := Some(PushValue(c, pc))])
    else (c, pool)
  }

  predicate ValidDest(dests: seq<nat>, d: nat) { d <= MAX_DEST && d in dests }

  function ConstJump(c: Code, dests: seq<nat>, i: nat, target: nat): Code
    requires i < |c|
  {
    if c[i] == JUMP && ValidDest(dests, target) then c[i := JUMPC]
    else if c[i] == JUMPI && ValidDest(dests, target) then c[i := JUMPCI]
    else c
  }

  /** The first pass over the instructions from `pc` to the end of the user code of `n` bytes. */
  function Pass(c: Code, pool: Pool, dests: seq<nat>, n: nat, pc: nat): (r: (Code, Pool))
    requires |c| == n + PADDING
    ensures |r.0| == |c|
    decreases n - pc
  {
    if pc >= n then (c, pool)
    else if IsPush(c[pc]) then
      var next := After(c, pc);
      var (c1, pool1) := PoolPush(c, pool, pc);
      Pass(ConstJump(c1, dests, next, PushValue(c, pc)), pool1, dests, n, next)
    else Pass(c, pool, dests, n, pc + 1)
  }

  /** A jump that stands right behind a PUSH of a valid destination. */
  ghost predicate ConstTarget(c: Code, dests: seq<nat>, i: nat) {
    exists p :: 0 <= p < i && p < |c| && Starts(c, p) && IsPush(c[p]) && After(c, p) == i <= |c|
                && ValidDest(dests, PushValue(c, p))
  }

  ghost predicate Pooled(c: Code, opt: Code, pool: Pool, i: nat)
    requires |opt| == |c| && i < |c| && IsPush(c[i]) && After(c, i) <= |c|
  {
    Immediate(c[i]) > 1 && opt[i] == PUSHC && opt[i + 2] == Immediate(c[i]) - 1 && opt[i + 1] == Slot(c, i)
    && pool[opt[i + 1]] == Some(PushValue(c, i))
  }

  /** A push stays as it is if it is of one byte or another constant has its pool slot. */
  ghost predicate Unpooled(c: Code, opt: Code, pool: Pool, i: nat)
    requires |opt| == |c| && i < |c| && IsPush(c[i]) && After(c, i) <= |c|
  {
    opt[i..After(c, i)] == c[i..After(c, i)]
    && (Immediate(c[i]) > 1 ==> pool[Slot(c, i)] != None && pool[Slot(c, i)] != Some(PushValue(c, i)))
  }

  /**
   What becomes of an instruction other than a push: a jump right behind
   a push of a valid destination is pre-verified.
   */
  ghost function Jumped(c: Code, dests: seq<nat>, i: nat): byte
    requires i < |c|
  {
    if c[i] == JUMP && ConstTarget(c, dests, i) then JUMPC
    else if c[i] == JUMPI && ConstTarget(c, dests, i) then JUMPCI
    else c[i]
  }

  /** What the pass has made of the instruction at `i`, exactly. */
  ghost predicate Faithful(c: Code, opt: Code, pool: Pool, dests: seq<nat>, i: nat)
    requires |opt| == |c| && i < |c| && After(c, i) <= |c|
  {
    if IsPush(c[i]) then Unpooled(c, opt, pool, i) || Pooled(c, opt, pool, i) else opt[i] == Jumped(c, dests, i)
  }

  ghost predicate Rewritten(c: Code, opt: Code, pool: Pool, dests: seq<nat>, upTo: nat)
    requires |opt| == |c|
  {
    forall i :: 0 <= i < upTo && i < |c| && Starts(c, i) && After(c, i) <= |c| ==> Faithful(c, opt, pool, dests, i)
  }

  /** Beyond `pc` nothing is rewritten yet, except a jump standing at `pc` itself. */
  ghost predicate Ahead(c: Code, opt: Code, dests: seq<nat>, pc: nat)
    requires |opt| == |c| && pc < |c|
  {
    opt[pc + 1..] == c[pc + 1..] && opt[pc] == Jumped(c, dests, pc)
  }

  /** The end of the user code as the walk sees it: padding from there on. */
  ghost predicate ZeroTail(c: Code, n: nat) {
    |c| == n + PADDING && forall i :: n <= i < |c| ==> c[i] == 0
  }

  /** Later writes leave an earlier instruction alone, and pool entries stay. */
  lemma EarlierKept(c: Code, opt: Code, opt': Code, pool: Pool, pool': Pool, dests: seq<nat>, i: nat)
    requires |opt| == |opt'| == |c| && i < |c| && After(c, i) <= |c|
    requires Faithful(c, opt, pool, dests, i)
    requires opt'[i..After(c, i)] == opt[i..After(c, i)]
    requires forall k: nat :: k < 256 && pool[k] != None ==> pool'[k] == pool[k]
    ensures Faithful(c, opt', pool', dests, i)
  {
    assert forall k :: i <= k < After(c, i) ==> opt'[k] == opt'[i..After(c, i)][k - i] == opt[k];
  }

  /** The bytes of a push that the pass has not come to yet. */
  lemma PushUntouched(c: Code, opt: Code, dests: seq<nat>, pc: nat)
    requires |opt| == |c| && pc < |c| && IsPush(c[pc]) && After(c, pc) < |c| && Ahead(c, opt, dests, pc)
    ensures opt[pc] == c[pc] && opt[pc..After(c, pc)] == c[pc..After(c, pc)] && opt[After(c, pc)..] == c[After(c, pc)..]
    ensures After(opt, pc) == After(c, pc) && PushValue(opt, pc) == PushValue(c, pc) && Slot(opt, pc) == Slot(c, pc)
  {
    var next := After(c, pc);
    assert forall k :: pc + 1 <= k < |c| ==> opt[k] == opt[pc + 1..][k - pc - 1] == c[pc + 1..][k - pc - 1] == c[k];
    assert opt[pc + 1..next] == c[pc + 1..next] && opt[pc + 2..next] == c[pc + 2..next];
  }

  /** Only the instruction right before can make a jump's target constant. */
  lemma TargetBefore(c: Code, dests: seq<nat>, pc: nat)
    requires Starts(c, pc) && pc < |c| && After(c, pc) <= |c|
    ensures ConstTarget(c, dests, After(c, pc)) <==> IsPush(c[pc]) && ValidDest(dests, PushValue(c, pc))
  {
    var i := After(c, pc);
    forall p: nat | p < i && p < |c| && Starts(c, p) && IsPush(c[p]) && After(c, p) == i <= |c| ensures p == pc {
      if p < pc { StartsApart(c, p, pc); }
      if p > pc { StartsApart(c, pc, p); }
    }
  }

  /** What pooling and the jump replacement write lies in the push and at the instruction behind it. */
  lemma PassStepWrites(opt: Code, pool: Pool, dests: seq<nat>, pc: nat)
    requires pc < |opt| && IsPush(opt[pc]) && After(opt, pc) < |opt|
    ensures var next := After(opt, pc);
            var (c1, pool1) := PoolPush(opt, pool, pc);
            var opt' := ConstJump(c1, dests, next, PushValue(opt, pc));
            && |opt'| == |opt|
            && (forall k :: 0 <= k < |opt| && (k < pc || k > next) ==> opt'[k] == opt[k])
            && (forall k :: pc <= k < next ==> opt'[k] == c1[k])
            && c1[next] == opt[next]
            && (forall k: nat :: k < 256 && pool[k] != None ==> pool1[k] == pool[k])
  {
  }

  /** One push and the jump behind it. */
  lemma PassStep(c: Code, opt: Code, pool: Pool, dests: seq<nat>, n: nat, pc: nat)
    requires ZeroTail(c, n) && |opt| == |c| && pc < n && Starts(c, pc) && IsPush(c[pc])
    requires Rewritten(c, opt, pool, dests, pc) && Ahead(c, opt, dests, pc)
    ensures opt[pc] == c[pc] && After(opt, pc) == After(c, pc) <= n + 32 && PushValue(opt, pc) == PushValue(c, pc)
    ensures var (c1, pool1) := PoolPush(opt, pool, pc);
            var opt' := ConstJump(c1, dests, After(c, pc), PushValue(c, pc));
            && Rewritten(c, opt', pool1, dests, After(c, pc))
            && Ahead(c, opt', dests, After(c, pc))
  {
    var next := After(c, pc);
    PushUntouched(c, opt, dests, pc);
    PassStepWrites(opt, pool, dests, pc);
    var (c1, pool1) := PoolPush(opt, pool, pc);
    var opt' := ConstJump(c1, dests, next, PushValue(c, pc));
    assert forall k :: next <= k < |c| ==> opt[k] == opt[next..][k - next] == c[next..][k - next] == c[k];
    assert opt'[next + 1..] == c[next + 1..];
    PushFaithful(c, opt, pool, dests, pc);
    NextJumped(c, opt, pool, dests, pc);
    StepKeepsEarlier(c, opt, opt', pool, pool1, dests, pc);
  }

  /** What is written at `pc` and behind leaves the instructions before it alone. */
  lemma StepKeepsEarlier(c: Code, opt: Code, opt': Code, pool: Pool, pool': Pool, dests: seq<nat>, pc: nat)
    requires |opt| == |opt'| == |c| && pc < |c| && Starts(c, pc) && After(c, pc) <= |c|
    requires Rewritten(c, opt, pool, dests, pc) && Faithful(c, opt', pool', dests, pc)
    requires forall k :: 0 <= k < pc ==> opt'[k] == opt[k]
    requires forall k: nat :: k < 256 && pool[k] != None ==> pool'[k] == pool[k]
    ensures Rewritten(c, opt', pool', dests, After(c, pc))
  {
    forall i | 0 <= i < After(c, pc) && i < |c| && Starts(c, i) && After(c, i) <= |c|
      ensures Faithful(c, opt', pool', dests, i)
    {
      if i < pc {
        StartsApart(c, i, pc);
        assert opt'[i..After(c, i)] == opt[i..After(c, i)];
        EarlierKept(c, opt, opt', pool, pool', dests, i);
      } else if i > pc {
        StartsApart(c, pc, i);
      }
    }
  }

  lemma NextJumped(c: Code, opt: Code, pool: Pool, dests: seq<nat>, pc: nat)
    requires |opt| == |c| && pc < |c| && Starts(c, pc) && IsPush(c[pc]) && After(c, pc) < |c|
    requires opt[pc] == c[pc] && opt[After(c, pc)] == c[After(c, pc)]
    ensures var (c1, pool1) := PoolPush(opt, pool, pc);
            ConstJump(c1, dests, After(c, pc), PushValue(c, pc))[After(c, pc)] == Jumped(c, dests, After(c, pc))
  {
    TargetBefore(c, dests, pc);
  }

  lemma PushFaithful(c: Code, opt: Code, pool: Pool, dests: seq<nat>, pc: nat)
    requires |opt| == |c| && pc < |c| && IsPush(c[pc]) && After(c, pc) < |c|
    requires opt[pc] == c[pc] && opt[pc..After(c, pc)] == c[pc..After(c, pc)]
    requires PushValue(opt, pc) == PushValue(c, pc) && Slot(opt, pc) == Slot(c, pc)
    ensures var (c1, pool1) := PoolPush(opt, pool, pc);
            Faithful(c, ConstJump(c1, dests, After(c, pc), PushValue(c, pc)), pool1, dests, pc)
  {
    var (c1, pool1) := PoolPush(opt, pool, pc);
    var opt' := ConstJump(c1, dests, After(c, pc), PushValue(c, pc));
    assert opt'[pc..After(c, pc)] == c1[pc..After(c, pc)];
  }

  /**
   The pass keeps every instruction's meaning and writes nothing from
   the first instruction start behind the user code on.
   */
  lemma {:induction false} PassRewrites(c: Code, opt: Code, pool: Pool, dests: seq<nat>, n: nat, pc: nat)
    requires ZeroTail(c, n) && |opt| == |c| && Starts(c, pc) && pc < |c|
    requires Rewritten(c, opt, pool, dests, pc) && Ahead(c, opt, dests, pc)
    requires forall k :: n <= k < pc ==> !Starts(c, k)
    ensures var (opt', pool') := Pass(opt, pool, dests, n, pc);
            && |opt'| == |c|
            && (forall i :: 0 <= i < |c| && Starts(c, i) && (i < n || !Past(c, n, i)) ==>
                  After(c, i) <= |c| && Faithful(c, opt', pool', dests, i))
            && (forall k :: n <= k < |c| && (Starts(c, k) || Past(c, n, k)) ==> opt'[k] == c[k])
    decreases n - pc
  {
    if pc < n {
      LandsStep(c, 0, pc);
      NoStartBefore(c, n, pc);
      if IsPush(opt[pc]) {
        PassStep(c, opt, pool, dests, n, pc);
        var (c1, pool1) := PoolPush(opt, pool, pc);
        PassRewrites(c, ConstJump(c1, dests, After(c, pc), PushValue(c, pc)), pool1, dests, n, After(c, pc));
      } else {
        assert After(c, pc) == pc + 1;
        assert opt[pc + 1] == c[pc + 1] by { assert opt[pc + 1..][0] == c[pc + 1..][0]; }
        assert opt[pc + 2..] == opt[pc + 1..][1..] == c[pc + 2..];
        forall i | 0 <= i < pc + 1 && i < |c| && Starts(c, i) && After(c, i) <= |c|
          ensures Faithful(c, opt, pool, dests, i)
        {
        }
        TargetBefore(c, dests, pc);
        PassRewrites(c, opt, pool, dests, n, pc + 1);
      }
    } else {
      PassEnds(c, opt, pool, dests, n, pc);
    }
  }

  lemma NoStartBefore(c: Code, n: nat, pc: nat)
    requires pc < n && Starts(c, pc) && pc < |c|
    ensures forall k :: n <= k < After(c, pc) ==> !Starts(c, k)
  {
    forall k | n <= k < After(c, pc) ensures !Starts(c, k) {
      if Starts(c, k) { StartsApart(c, pc, k); }
    }
  }

  /** Where the walk stops: at the first instruction start at or behind byte `n`. */
  lemma PassEnds(c: Code, opt: Code, pool: Pool, dests: seq<nat>, n: nat, pc: nat)
    requires ZeroTail(c, n) && |opt| == |c| && Starts(c, pc) && n <= pc < |c|
    requires Rewritten(c, opt, pool, dests, pc) && Ahead(c, opt, dests, pc)
    requires forall k :: n <= k < pc ==> !Starts(c, k)
    ensures forall i :: 0 <= i < |c| && Starts(c, i) && (i < n || !Past(c, n, i)) ==>
              After(c, i) <= |c| && Faithful(c, opt, pool, dests, i)
    ensures forall k :: n <= k < |c| && (Starts(c, k) || Past(c, n, k)) ==> opt[k] == c[k]
  {
    assert forall i: nat :: pc < i ==> Past(c, n, i);
    forall i | 0 <= i < |c| && Starts(c, i) && (i < n || !Past(c, n, i))
      ensures After(c, i) <= |c| && Faithful(c, opt, pool, dests, i)
    {
      if i < pc { StartsApart(c, i, pc); }
    }
    assert forall k :: pc < k < |c| ==> opt[k] == opt[pc + 1..][k - pc - 1] == c[pc + 1..][k - pc - 1] == c[k];
  }

  /** `i` lies beyond the first instruction start at or after byte `n`. */
  ghost predicate Past(c: Code, n: nat, i: nat) {
    exists e :: n <= e < i && Starts(c, e)
  }
}
