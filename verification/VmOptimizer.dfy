/**
 The interpreter's step on prepared code (cvvm/VM.cpp), and what the first
 pass does to it: rewritten and original code go through the same states.

 Instructions other than PUSH, JUMP, JUMPI and the synthetic ones are an
 arbitrary function of opcode, program counter and machine state, so the
 results hold for whatever they do. `W` is everything besides stack and gas:
 memory, storage, logs, the results of nested calls.
 */
module VmOptimizer {
  import opened Wrappers
  import opened BigEndian
  import opened VmCode

  datatype Metric = Metric(args: nat, ret: nat, gas: nat)

  datatype Machine<W> = Machine(stack: seq<nat>, gas: nat, rest: W)

  datatype Fault = BadStack | OutOfGas | BadJump | BadInstruction

  /** `Underrun` is a read below the stack's first element. */
  datatype State<W> =
    | Running(pc: nat, m: Machine<W>)
    | Halted(m: Machine<W>)
    | Failed(fault: Fault)
    | Underrun

  datatype Semantics<!W> = Semantics(metric: byte -> Metric, exec: (byte, nat, Machine<W>) -> State<W>)

  datatype Program = Program(code: Code, pool: Pool, dests: seq<nat>)

  function Top<W>(m: Machine<W>): nat
    requires m.stack != []
  {
    m.stack[|m.stack| - 1]
  }

  function Pop<W>(m: Machine<W>, k: nat): Machine<W>
    requires k <= |m.stack|
  {
    m.(stack := m.stack[..|m.stack| - k])
  }

  function Push<W>(m: Machine<W>, v: nat): Machine<W> { m.(stack := m.stack + [v]) }

  function PoolValue(pool: Pool, i: nat): nat
    requires i < 256
  {
    if pool[i].Some? then pool[i].value else 0
  }

  /** JUMPI and JUMPCI: two operands, of which the metric table need not have asked for both. */
  function Branch<W>(p: Program, pc: nat, m: Machine<W>, verify: bool): State<W> {
    if |m.stack| < 2 then Underrun
    else if m.stack[|m.stack| - 2] == 0 then Running(pc + 1, Pop(m, 2))
    else if verify && !ValidDest(p.dests, Top(m)) then Failed(BadJump)
    else Running(Top(m), Pop(m, 2))
  }

  /** The instruction at `pc`, after its stack check and with its tier's gas taken. */
  function Perform<W>(sem: Semantics<W>, p: Program, pc: nat, m: Machine<W>): State<W>
    requires pc < |p.code| && After(p.code, pc) <= |p.code|
    requires p.code[pc] == PUSHC ==> pc + 2 < |p.code|
  {
    var op := p.code[pc];
    if IsPush(op) then Running(After(p.code, pc), Push(m, PushValue(p.code, pc)))
    else if op == PUSHC then Running(pc + 2 + p.code[pc + 2], Push(m, PoolValue(p.pool, p.code[pc + 1])))
    else if op == JUMP then
      if m.stack == [] then Underrun
      else if ValidDest(p.dests, Top(m)) then Running(Top(m), Pop(m, 1)) else Failed(BadJump)
    else if op == JUMPC then
      if m.stack == [] then Underrun else Running(Top(m), Pop(m, 1))
    else if op == JUMPI then Branch(p, pc, m, true)
    else if op == JUMPCI then Branch(p, pc, m, false)
    else sem.exec(op, pc, m)
  }

  predicate StackOk<W>(t: Metric, m: Machine<W>) {
    t.args <= |m.stack| && |m.stack| - t.args + t.ret <= 1024
  }

  predicate Fetchable(p: Program, pc: nat) {
    && pc < |p.code| && After(p.code, pc) <= |p.code|
    && (p.code[pc] == PUSHC ==> pc + 2 < |p.code|)
  }

  predicate TierCharged(op: byte) {
    IsPush(op) || op == PUSHC || op == JUMP || op == JUMPI || op == JUMPC || op == JUMPCI
  }

  /** One turn of the interpreter loop. */
  function Step<W>(sem: Semantics<W>, p: Program, s: State<W>): State<W>
    requires s.Running? ==> Fetchable(p, s.pc)
  {
    if !s.Running? then s else
      var op := p.code[s.pc];
      var t := sem.metric(op);
      if !StackOk(t, s.m) then Failed(BadStack)
      else if TierCharged(op) then
        if s.m.gas < t.gas then Failed(OutOfGas)
        else Perform(sem, p, s.pc, s.m.(gas := s.m.gas - t.gas))
      else Perform(sem, p, s.pc, s.m)
  }

  /** The machine once an instruction of these metrics may run: the stack fits, and the gas is taken. */
  ghost predicate Ready<W>(sem: Semantics<W>, op: byte, m: Machine<W>, paid: Machine<W>) {
    var t := sem.metric(op);
    t.args <= |m.stack| && |m.stack| - t.args + t.ret <= 1024 && t.gas <= m.gas && paid == m.(gas := m.gas - t.gas)
  }

  /** A push goes behind its data with their number on the stack. */
  lemma PushMeans<W>(sem: Semantics<W>, p: Program, pc: nat, m: Machine<W>, paid: Machine<W>)
    requires Fetchable(p, pc) && IsPush(p.code[pc]) && Ready(sem, p.code[pc], m, paid)
    ensures var k: nat := p.code[pc] - PUSH1 + 1;
            Step(sem, p, Running(pc, m)) ==
              Running(pc + 1 + k, paid.(stack := m.stack + [FromBytes(p.code[pc + 1..pc + 1 + k])]))
  {
  }

  /** A jump goes to the destination on top of the stack, which must be valid. */
  lemma JumpMeans<W>(sem: Semantics<W>, p: Program, pc: nat, m: Machine<W>, paid: Machine<W>, rest: seq<nat>, d: nat)
    requires Fetchable(p, pc) && p.code[pc] == JUMP && Ready(sem, JUMP, m, paid) && m.stack == rest + [d]
    ensures Step(sem, p, Running(pc, m)) ==
              if d in p.dests && d <= MAX_DEST then Running(d, paid.(stack := rest)) else Failed(BadJump)
  {
    assert m.stack[..|m.stack| - 1] == rest;
  }

  /** A conditional jump goes on behind itself on zero, and otherwise where a jump would. */
  lemma JumpIMeans<W>(sem: Semantics<W>, p: Program, pc: nat, m: Machine<W>, paid: Machine<W>, rest: seq<nat>,
      condition: nat, d: nat)
    requires Fetchable(p, pc) && p.code[pc] == JUMPI && Ready(sem, JUMPI, m, paid) && m.stack == rest + [condition, d]
    ensures Step(sem, p, Running(pc, m)) ==
              if condition == 0 then Running(pc + 1, paid.(stack := rest))
              else if d in p.dests && d <= MAX_DEST then Running(d, paid.(stack := rest)) else Failed(BadJump)
  {
    assert m.stack[..|m.stack| - 2] == rest;
  }

  // ----- What is assumed of the parameters -----

  /** The rows of the metric table that the pass relies on. */
  predicate RowsMatch(metric: byte -> Metric) {
    && (forall op: byte :: PUSH1 < op <= PUSH32 ==> metric(op) == metric(PUSHC))
    && metric(PUSHC).args == 0 && metric(PUSHC).ret == 1
    && metric(PUSH1).args == 0 && metric(PUSH1).ret == 1
    && metric(JUMPC) == metric(JUMP) == Metric(1, 0, metric(JUMP).gas)
    && metric(JUMPI) == Metric(2, 0, metric(JUMPI).gas)
    && metric(JUMPCI).gas == metric(JUMPI).gas && metric(JUMPCI).ret == 0
    && 1 <= metric(JUMPCI).args <= 2
  }

  /** Other instructions go on to the next byte, keep to their metric, and opcode 0 halts. */
  ghost predicate Orderly<W(!new)>(sem: Semantics<W>) {
    forall op: byte, pc: nat, m: Machine<W> {:trigger sem.exec(op, pc, m)} ::
      var s := sem.exec(op, pc, m);
      && (op == 0 ==> !s.Running?)
      && (s.Running? && StackOk(sem.metric(op), m) ==>
            s.pc == pc + 1 && |s.m.stack| == |m.stack| - sem.metric(op).args + sem.metric(op).ret)
  }

  // ----- The two programs -----

  /** Prepared code, its table of destinations, and the length of the user code. */
  ghost predicate Prepared(c: Code, dests: seq<nat>, n: nat) {
    && ZeroTail(c, n)
    && (forall i :: 0 <= i < |c| && Starts(c, i) ==> !IsSynthetic(c[i]))
    && (forall d :: d in dests <==> 0 <= d < n && Starts(c, d) && c[d] == JUMPDEST)
  }

  function Plain(c: Code, dests: seq<nat>): Program { Program(c, seq(256, _ => None), dests) }

  function Optimized(c: Code, dests: seq<nat>, n: nat): Program
    requires |c| == n + PADDING
  {
    var (opt, pool) := Pass(c, seq(256, _ => None), dests, n, 0);
    Program(opt, pool, dests)
  }

  /** A jump behind a PUSH finds the pushed constant on top. */
  ghost predicate ConstOnTop<W>(c: Code, s: State<W>)
    requires s.Running?
  {
    s.pc < |c| && c[s.pc] != JUMPDEST ==>
      forall p :: 0 <= p < s.pc && Starts(c, p) && IsPush(c[p]) && After(c, p) == s.pc ==>
        s.m.stack != [] && Top(s.m) == PushValue(c, p)
  }

  /** Control stands at an instruction start, at the latest the first one behind the user code. */
  ghost predicate Reach<W>(c: Code, n: nat, s: State<W>) {
    s.Running? ==>
      && Starts(c, s.pc) && s.pc <= n + 32 && !Past(c, n, s.pc)
      && |s.m.stack| <= 1024
      && ConstOnTop(c, s)
  }

  lemma ReachFetchable<W>(c: Code, dests: seq<nat>, n: nat, s: State<W>)
    requires Prepared(c, dests, n) && Reach(c, n, s) && s.Running?
    ensures Fetchable(Plain(c, dests), s.pc)
    ensures Faithful(c, Optimized(c, dests, n).code, Optimized(c, dests, n).pool, dests, s.pc)
    ensures Fetchable(Optimized(c, dests, n), s.pc)
  {
    var none: Pool := seq(256, _ => None);
    PassRewrites(c, c, none, dests, n, 0);
    var opt := Optimized(c, dests, n);
    assert Faithful(c, opt.code, opt.pool, dests, s.pc);
    if s.pc >= n { assert c[s.pc] == 0; }
    if IsPush(c[s.pc]) && opt.code[s.pc..After(c, s.pc)] == c[s.pc..After(c, s.pc)] {
      assert opt.code[s.pc] == opt.code[s.pc..After(c, s.pc)][0];
    }
  }

  /** Falling through to the next instruction, with `v` on top if the last one pushed it. */
  lemma FallThrough<W>(c: Code, n: nat, pc: nat, m: Machine<W>)
    requires |c| == n + PADDING && pc < n && Starts(c, pc) && |m.stack| <= 1024
    requires IsPush(c[pc]) ==> m.stack != [] && Top(m) == PushValue(c, pc)
    ensures Reach(c, n, Running(After(c, pc), m))
  {
    LandsStep(c, 0, pc);
    var next := After(c, pc);
    forall p | 0 <= p < next && Starts(c, p) && IsPush(c[p]) && After(c, p) == next ensures p == pc {
      if p < pc { StartsApart(c, p, pc); }
      if pc < p { StartsApart(c, pc, p); }
    }
    forall e | n <= e < next && Starts(c, e) ensures false { StartsApart(c, pc, e); }
  }

  lemma Landing<W>(c: Code, dests: seq<nat>, n: nat, d: nat, m: Machine<W>)
    requires Prepared(c, dests, n) && d in dests && |m.stack| <= 1024
    ensures Reach(c, n, Running(d, m))
  {
  }

  /** The step on the original code keeps control at instruction starts. */
  lemma StepReach<W(!new)>(sem: Semantics<W>, c: Code, dests: seq<nat>, n: nat, s: State<W>)
    requires Prepared(c, dests, n) && Orderly(sem) && RowsMatch(sem.metric)
    requires Reach(c, n, s) && s.Running? && Fetchable(Plain(c, dests), s.pc)
    ensures Reach(c, n, Step(sem, Plain(c, dests), s))
  {
    var op := c[s.pc];
    var s' := Step(sem, Plain(c, dests), s);
    if s'.Running? {
      if s.pc >= n {
        assert false;
      }
      if (op == JUMP || op == JUMPI) && s'.pc != s.pc + 1 {
        Landing(c, dests, n, s'.pc, s'.m);
      } else if (op == JUMP || op == JUMPI) && ValidDest(dests, s'.pc) {
        Landing(c, dests, n, s'.pc, s'.m);
      } else {
        FallThrough(c, n, s.pc, s'.m);
      }
    }
  }

  // ----- Lockstep -----

  /** A rewritten conditional jump meets a stack that holds nothing but its target. */
  ghost predicate Starved<W>(sem: Semantics<W>, opt: Program, s: State<W>) {
    s.Running? && s.pc < |opt.code| && opt.code[s.pc] == JUMPCI
    && sem.metric(JUMPCI).args < 2 && |s.m.stack| == 1
  }

  /** On reachable states the two programs take the same step, unless a rewritten JUMPI is starved. */
  lemma StepsAgree<W(!new)>(sem: Semantics<W>, c: Code, dests: seq<nat>, n: nat, s: State<W>)
    requires Prepared(c, dests, n) && RowsMatch(sem.metric) && Reach(c, n, s) && s.Running?
    requires Fetchable(Plain(c, dests), s.pc) && Fetchable(Optimized(c, dests, n), s.pc)
    ensures !Starved(sem, Optimized(c, dests, n), s) <==>
            Step(sem, Optimized(c, dests, n), s) == Step(sem, Plain(c, dests), s)
  {
    var base, opt := Plain(c, dests), Optimized(c, dests, n);
    ReachFetchable(c, dests, n, s);
    var pc := s.pc;
    if IsPush(c[pc]) {
      if opt.code[pc..After(c, pc)] == c[pc..After(c, pc)] {
        assert opt.code[pc] == opt.code[pc..After(c, pc)][0] == c[pc];
        assert opt.code[pc + 1..After(c, pc)] == opt.code[pc..After(c, pc)][1..] == c[pc + 1..After(c, pc)];
      } else {
        assert Pooled(c, opt.code, opt.pool, pc);
      }
    } else if opt.code[pc] != c[pc] {
      var p :| 0 <= p < pc && p < |c| && Starts(c, p) && IsPush(c[p]) && After(c, p) == pc
               && ValidDest(dests, PushValue(c, p));
      assert Top(s.m) == PushValue(c, p);
    }
  }

  /** The state after `k` turns of the loop on the original code. */
  ghost function RunPlain<W(!new)>(sem: Semantics<W>, c: Code, dests: seq<nat>, n: nat, s: State<W>,
      k: nat): (r: State<W>)
    requires Prepared(c, dests, n) && Orderly(sem) && RowsMatch(sem.metric) && Reach(c, n, s)
    ensures Reach(c, n, r)
  {
    if k == 0 then s else
      var r := RunPlain(sem, c, dests, n, s, k - 1);
      if !r.Running? then r else
        ReachFetchable(c, dests, n, r);
        StepReach(sem, c, dests, n, r);
        Step(sem, Plain(c, dests), r)
  }

  ghost predicate StepOf<W>(sem: Semantics<W>, p: Program, a: State<W>, b: State<W>) {
    (a.Running? ==> Fetchable(p, a.pc)) && b == Step(sem, p, a)
  }

  /** `run` is what the rewritten code goes through from `s` in `k` turns, as far as every fetch is inside the code. */
  ghost predicate RunOf<W>(sem: Semantics<W>, p: Program, s: State<W>, run: seq<State<W>>) {
    && run != [] && run[0] == s
    && forall k, l :: 0 <= k < l < |run| && l == k + 1 ==> StepOf(sem, p, run[k], run[l])
  }

  /**
   The first pass preserves meaning: over any number of steps the rewritten code goes through the
   states of the original, for as long as no rewritten JUMPI is starved.
   */
  lemma {:induction false} Lockstep<W(!new)>(
    sem: Semantics<W>, c: Code, dests: seq<nat>, n: nat, s: State<W>, run: seq<State<W>>, k: nat)
    requires Prepared(c, dests, n) && Orderly(sem) && RowsMatch(sem.metric) && Reach(c, n, s)
    requires RunOf(sem, Optimized(c, dests, n), s, run) && k < |run|
    requires forall j: nat :: j < k ==> !Starved(sem, Optimized(c, dests, n), RunPlain(sem, c, dests, n, s, j))
    ensures run[k] == RunPlain(sem, c, dests, n, s, k)
  {
    if k > 0 {
      Lockstep(sem, c, dests, n, s, run, k - 1);
      var r := RunPlain(sem, c, dests, n, s, k - 1);
      assert run[k - 1] == r && !Starved(sem, Optimized(c, dests, n), r);
      assert StepOf(sem, Optimized(c, dests, n), run[k - 1], run[k]);
      if r.Running? {
        ReachFetchable(c, dests, n, r);
        StepsAgree(sem, c, dests, n, r);
      }
    }
  }

  /** The run of the rewritten code always exists: it never fetches outside the padded code until it is starved. */
  lemma {:induction false} OptimizedRuns<W(!new)>(
    sem: Semantics<W>, c: Code, dests: seq<nat>, n: nat, s: State<W>, k: nat) returns (run: seq<State<W>>)
    requires Prepared(c, dests, n) && Orderly(sem) && RowsMatch(sem.metric) && Reach(c, n, s)
    requires forall j: nat :: j < k ==> !Starved(sem, Optimized(c, dests, n), RunPlain(sem, c, dests, n, s, j))
    ensures |run| == k + 1 && RunOf(sem, Optimized(c, dests, n), s, run)
  {
    if k == 0 {
      run := [s];
    } else {
      var before := OptimizedRuns(sem, c, dests, n, s, k - 1);
      Lockstep(sem, c, dests, n, s, before, k - 1);
      var last := before[k - 1];
      if last.Running? { ReachFetchable(c, dests, n, last); }
      run := before + [Step(sem, Optimized(c, dests, n), last)];
      forall i, j | 0 <= i < j < |run| && j == i + 1
        ensures StepOf(sem, Optimized(c, dests, n), run[i], run[j])
      {
        if j < k {
          assert run[i] == before[i] && run[j] == before[j];
        } else {
          assert run[i] == last;
        }
      }
    }
  }

  /** With one and the same row for JUMPI and JUMPCI nothing is ever starved, so the pass is transparent. */
  lemma SameRowsNeverStarve<W>(sem: Semantics<W>, opt: Program, s: State<W>)
    requires sem.metric(JUMPCI) == sem.metric(JUMPI) && RowsMatch(sem.metric)
    ensures !Starved(sem, opt, s)
  {
  }

  /** With matching rows the pass preserves meaning outright: `k` steps from the entry of any prepared code. */
  lemma PassPreservesMeaning<W(!new)>(
    sem: Semantics<W>, c: Code, dests: seq<nat>, n: nat, m: Machine<W>, k: nat) returns (run: seq<State<W>>)
    requires Prepared(c, dests, n) && Orderly(sem) && RowsMatch(sem.metric) && |m.stack| <= 1024
    requires sem.metric(JUMPCI) == sem.metric(JUMPI)
    ensures |run| == k + 1 && RunOf(sem, Optimized(c, dests, n), Running(0, m), run)
    ensures Reach(c, n, Running(0, m)) && run[k] == RunPlain(sem, c, dests, n, Running(0, m), k)
  {
    run := OptimizedRuns(sem, c, dests, n, Running(0, m), k);
    Lockstep(sem, c, dests, n, Running(0, m), run, k);
  }

  /** In every run control stands at an instruction start no further than 32 bytes behind the user code. */
  lemma ControlStaysInside<W(!new)>(
    sem: Semantics<W>, c: Code, dests: seq<nat>, n: nat, m: Machine<W>, k: nat)
    requires Prepared(c, dests, n) && Orderly(sem) && RowsMatch(sem.metric) && |m.stack| <= 1024
    ensures Reach(c, n, Running(0, m))
    ensures var s := RunPlain(sem, c, dests, n, Running(0, m), k);
            s.Running? ==> Starts(c, s.pc) && s.pc <= n + 32 && After(c, s.pc) <= |c| && |s.m.stack| <= 1024
  {
    var s := RunPlain(sem, c, dests, n, Running(0, m), k);
    if s.Running? { ReachFetchable(c, dests, n, s); }
  }

  /** The rows of the repository's table: JUMPCI asks for one operand, JUMPI for two. */
  function TableRows(op: byte): Metric {
    if IsPush(op) || op == PUSHC then Metric(0, 1, 3)
    else if op == JUMP || op == JUMPC then Metric(1, 0, 8)
    else if op == JUMPI then Metric(2, 0, 10)
    else if op == JUMPCI then Metric(1, 0, 10)
    else Metric(0, 0, 0)
  }

  function StopAll(op: byte, pc: nat, m: Machine<()>): State<()> { Halted(m) }

  /**
   With the repository's table the pass changes this program: PUSH1 3; JUMPI; JUMPDEST. The original
   stops at JUMPI for want of a second operand, the rewritten one reads below its stack.
   */
  lemma TableRowsBreakJumpI()
    ensures var c := Padded([PUSH1, 3, JUMPI, JUMPDEST]);
            var sem := Semantics(TableRows, StopAll);
            var s0 := Running(0, Machine([], 100, ()));
            && Prepared(c, [3], 4) && Orderly(sem) && RowsMatch(TableRows) && Reach(c, 4, s0)
            && var s1 := Step(sem, Plain(c, [3]), s0);
               && s1 == Running(2, Machine([3], 97, ())) && Fetchable(Plain(c, [3]), 2)
               && Step(sem, Plain(c, [3]), s1) == Failed(BadStack)
               && Optimized(c, [3], 4).code[2] == JUMPCI
               && Step(sem, Optimized(c, [3], 4), s1) == Underrun
  {
    var u: Code := [PUSH1, 3, JUMPI, JUMPDEST];
    var c := Padded(u);
    OneByte(c);
    ProgramPrepared(c);
    ProgramRewritten(c, seq(256, _ => None));
  }

  lemma ProgramPrepared(c: Code)
    requires c == Padded([PUSH1, 3, JUMPI, JUMPDEST])
    ensures Prepared(c, [3], 4) && Reach(c, 4, Running(0, Machine([], 100, ()))) && Starts(c, 2)
  {
    assert Lands(c, 0, 2) && Lands(c, 2, 3) && Lands(c, 0, 3);
    assert !Lands(c, 0, 1);
    forall i | 0 <= i < |c| && Starts(c, i) ensures !IsSynthetic(c[i]) {}
  }

  /** What the program pushes. */
  lemma OneByte(c: Code)
    requires |c| > 2 && c[1] == 3
    ensures c[1..2] == [3] && FromBytes(c[1..2]) == 3
  {
    assert [3][..0] == [] && FromBytes([]) == 0;
    assert FromBytes([3]) == 256 * FromBytes([3][..0]) + 3;
  }

  lemma ProgramRewritten(c: Code, pool: Pool)
    requires c == Padded([PUSH1, 3, JUMPI, JUMPDEST])
    ensures Pass(c, pool, [3], 4, 0).0 == c[2 := JUMPCI]
  {
    var c' := c[2 := JUMPCI];
    OneByte(c);
    assert Pass(c', pool, [3], 4, 2) == Pass(c', pool, [3], 4, 3) == Pass(c', pool, [3], 4, 4) == (c', pool);
    assert PoolPush(c, pool, 0) == (c, pool);
    assert ConstJump(c, [3], 2, 3) == c';
  }
}
