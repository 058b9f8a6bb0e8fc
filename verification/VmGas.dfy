/**
 Gas and memory metering of contract execution, with nested calls and creates
 (cvvm/VM.cpp, cvvm/VMCalls.cpp, libcv/Executive.cpp, libcv/ExtVM.cpp).

 What a contract does is an arbitrary function: from the frame's own data,
 its gas and its memory size to the next instruction. `W` is everything a
 frame works on besides gas and memory size. The gas schedule is a parameter.
 */
module VmGas {
  import opened Wrappers

  const MAX63: nat := 0x7FFF_FFFF_FFFF_FFFF
  const TWO64: nat := 0x1_0000_0000_0000_0000
  const MAX_DEPTH: nat := 1024

  datatype Schedule = Schedule(
    callGas: nat, createGas: nat, callNewAccountGas: nat, callValueTransferGas: nat, callStipend: nat,
    memoryGas: nat, quadCoeffDiv: nat, copyGas: nat, createDataGas: nat, maxCodeSize: nat,
    staticCallDepthLimit: bool, failedDepositThrows: bool)
  {
    predicate Valid() {
      callGas > 0 && createGas > 0 && quadCoeffDiv > 0 && callStipend <= callValueTransferGas
    }
  }

  /** The account a CALL goes to. */
  datatype Callee<W> = Precompiled(cost: nat) | NoCode | Contract(entry: W)

  /** What an instruction asks for; `resume` takes in what a nested execution left. */
  datatype Action<!W> =
    | Plain(runGas: nat, memNeed: nat, copySize: nat, next: W)
    | Halt(runGas: nat, memNeed: nat, outSize: nat, last: W)
    | Throw
    | Call(memNeed: nat, newAccount: bool, sendsValue: bool, requested: nat, affordable: bool,
           callee: Callee<W>, resume: Option<W> -> W)
    | Create(memNeed: nat, affordable: bool, init: Option<W>, resume: Option<W> -> W)

  /**
   Where the gas of a frame and of all frames nested in it went: to instructions, memory growth and copying, to
   precompiled contracts and code deposits (`services`), to exceptions, of which there were `faults`, and into
   the bits above the 64 that the interpreter counts. `stipends` came in with `valueCalls` calls that send value.
   */
  datatype Tally = Tally(instructions: nat, growth: nat, copying: nat, services: nat, burned: nat, cut: nat,
                         stipends: nat, faults: nat, valueCalls: nat)
  {
    function Gone(): nat { instructions + growth + copying + services + burned + cut }

    /** Nothing burns without an exception, and no stipend comes without a call that sends value. */
    ghost predicate Orderly() { (burned > 0 ==> faults > 0) && (stipends > 0 ==> valueCalls > 0) }
  }

  const Nothing: Tally := Tally(0, 0, 0, 0, 0, 0, 0, 0, 0)

  function Both(a: Tally, b: Tally): Tally {
    Tally(a.instructions + b.instructions, a.growth + b.growth, a.copying + b.copying, a.services + b.services,
          a.burned + b.burned, a.cut + b.cut, a.stipends + b.stipends, a.faults + b.faults, a.valueCalls + b.valueCalls)
  }

  function Burnt(gas: nat): Tally { Nothing.(burned := gas, faults := 1) }

  /** Gas supplied and gas granted on the way have all been spent or are left. */
  ghost predicate Balanced(supplied: nat, left: nat, t: Tally) { left + t.Gone() == supplied + t.stipends }

  /**
   `Fault` is an exception that the enclosing Executive turns into zero gas. `steps` counts the
   instructions paid for and followed by another one, in the frame and in all frames nested in it.
   */
  datatype Outcome<W> =
    | Done(gas: nat, mem: nat, memPaid: nat, outSize: nat, w: W, steps: nat, tally: Tally)
    | Fault(steps: nat, tally: Tally)
  {
    function Left(): nat { if Done? then gas else 0 }
  }

  /** What a nested execution hands back to the instruction that started it. */
  datatype Back<W> = Back(gas: nat, steps: nat, left: Option<W>, tally: Tally)

  datatype Frame<W> = Frame(gas: nat, mem: nat, memPaid: nat, w: W)

  type Contract<!W> = (W, nat, nat) -> Action<W>

  /** Instructions that neither halt nor call cost something. */
  ghost predicate Costly<W(!new)>(code: Contract<W>) {
    forall w, g: nat, mem: nat {:trigger code(w, g, mem)} :: code(w, g, mem).Plain? ==> code(w, g, mem).runGas > 0
  }

  function MemCost(sch: Schedule, size: nat): nat
    requires sch.quadCoeffDiv > 0
  {
    var s := size / 32;
    sch.memoryGas * s + s * s / sch.quadCoeffDiv
  }

  function RoundUp(size: nat): nat { (size + 31) / 32 * 32 }

  lemma MulMono(a: nat, b: nat, c: nat)
    requires a <= b
    ensures a * c <= b * c && c * a <= c * b
  {
  }

  lemma DivBelow(x: nat, k: nat, d: nat)
    requires d > 0 && x < k * d
    ensures x / d < k
  {
    if x / d >= k { MulMono(k, x / d, d); }
  }

  lemma DivMono(x: nat, y: nat, d: nat)
    requires x <= y && d > 0
    ensures x / d <= y / d
  {
    var q := y / d;
    assert y < q * d + d;
    assert q * d + d == (q + 1) * d;
    DivBelow(x, q + 1, d);
  }

  lemma MemCostMono(sch: Schedule, a: nat, b: nat)
    requires sch.quadCoeffDiv > 0 && a <= b
    ensures MemCost(sch, a) <= MemCost(sch, b)
  {
    var s, t := a / 32, b / 32;
    MulMono(s, t, sch.memoryGas);
    MulMono(s, t, s);
    MulMono(s, t, t);
    DivMono(s * s, t * t, sch.quadCoeffDiv);
  }

  function NewMem(mem: nat, need: nat): (r: nat)
    ensures r >= mem
  {
    if RoundUp(need) > mem then RoundUp(need) else mem
  }

  /** The part of a charge that is for growing memory. */
  function Growth(sch: Schedule, mem: nat, need: nat): (r: nat)
    requires sch.quadCoeffDiv > 0
    ensures r == MemCost(sch, NewMem(mem, need)) - MemCost(sch, mem)
  {
    MemCostMono(sch, mem, NewMem(mem, need));
    MemCost(sch, NewMem(mem, need)) - MemCost(sch, mem)
  }

  function CopyCost(sch: Schedule, copy: nat): nat { sch.copyGas * ((copy + 31) / 32) }

  /** updateMem then updateIOGas: the whole charge of an instruction, or nothing if it cannot be paid. */
  function Charge<W>(sch: Schedule, f: Frame<W>, runGas: nat, need: nat, copy: nat): (r: Option<Frame<W>>)
    requires sch.quadCoeffDiv > 0
    ensures r.Some? ==> r.value.gas + runGas <= f.gas && r.value.mem >= f.mem
    ensures r.Some? ==> r.value.memPaid - f.memPaid == MemCost(sch, r.value.mem) - MemCost(sch, f.mem)
    ensures r.Some? ==> f.gas - r.value.gas == runGas + (r.value.memPaid - f.memPaid) + CopyCost(sch, copy)
  {
    var mem, growth := NewMem(f.mem, need), Growth(sch, f.mem, need);
    var cost := runGas + growth + CopyCost(sch, copy);
    if (mem > f.mem && MemCost(sch, mem) > MAX63) || f.gas < cost then None
    else Some(Frame(f.gas - cost, mem, f.memPaid + growth, f.w))
  }

  function CallBase(sch: Schedule, newAccount: bool, sendsValue: bool): nat {
    sch.callGas + (if newAccount then sch.callNewAccountGas else 0) +
        (if sendsValue then sch.callValueTransferGas else 0)
  }

  function AllBut64th(gas: nat): (r: nat)
    ensures r <= gas
  {
    gas - gas / 64
  }

  /** The gas a call may take along, before the stipend. */
  function CallGas(sch: Schedule, gas: nat, requested: nat): nat {
    if sch.staticCallDepthLimit || requested < AllBut64th(gas) then requested else AllBut64th(gas)
  }

  /** A creation takes everything along, or under the later rule all but a 64th. */
  function CreateGas(sch: Schedule, gas: nat): (r: nat)
    ensures r <= gas && if sch.staticCallDepthLimit then r == gas else 64 * (gas - r) <= gas < 64 * (gas - r + 1)
  {
    if sch.staticCallDepthLimit then gas else AllBut64th(gas)
  }

  // ----- Nested execution -----

  /** The low 64 bits of the gas, which is all the interpreter counts. */
  function Low64(gas: nat): (r: nat)
    ensures r <= gas && r < TWO64 && (gas - r) % TWO64 == 0
  {
    if gas < TWO64 then gas else gas % TWO64
  }

  /** What an accepted charge went to. */
  function Charged(sch: Schedule, runGas: nat, growth: nat, copy: nat): Tally {
    Nothing.(instructions := runGas, growth := growth, copying := CopyCost(sch, copy))
  }

  function Stipend(sch: Schedule, sendsValue: bool): nat { if sendsValue then sch.callStipend else 0 }

  function Granted(sch: Schedule, sendsValue: bool): Tally {
    Nothing.(stipends := Stipend(sch, sendsValue), valueCalls := if sendsValue then 1 else 0)
  }

  lemma BothBalanced(a: Tally, b: Tally)
    ensures Both(a, b).Gone() == a.Gone() + b.Gone()
    ensures a.Orderly() && b.Orderly() ==> Both(a, b).Orderly()
  {
  }

  function Cut(gas: nat): Tally { Nothing.(cut := gas - Low64(gas)) }

  lemma CutBalanced(gas: nat, left: nat, t: Tally)
    requires Balanced(Low64(gas), left, t) && t.Orderly()
    ensures Balanced(gas, left, Both(Cut(gas), t)) && Both(Cut(gas), t).Orderly()
  {
    BothBalanced(Cut(gas), t);
  }

  /** What goes to instruction, growth and copying has left the frame. */
  lemma ChargeBalanced(sch: Schedule, gas: nat, runGas: nat, growth: nat, copy: nat)
    requires gas >= runGas + growth + CopyCost(sch, copy)
    ensures var t := Charged(sch, runGas, growth, copy);
            t.Orderly() && Balanced(gas, gas - runGas - growth - CopyCost(sch, copy), t)
  {
  }

  /** An exception burns what is left. */
  lemma BurntBalanced(gas: nat, left: nat, t: Tally)
    requires Balanced(gas, left, t) && t.Orderly()
    ensures Balanced(gas, 0, Both(t, Burnt(left))) && Both(t, Burnt(left)).Orderly()
  {
    BothBalanced(t, Burnt(left));
  }

  /** A call or creation: what the nested execution took is added. */
  lemma NestedBalanced(gas: nat, left: nat, t: Tally, passed: nat, back: nat, u: Tally)
    requires Balanced(gas, left, t) && t.Orderly() && Balanced(passed, back, u) && u.Orderly() && passed <= left
    ensures Balanced(gas, left - passed + back, Both(t, u)) && Both(t, u).Orderly()
  {
    BothBalanced(t, u);
  }

  /** A call: the stipend is granted on top of what is taken. */
  lemma CallBalanced(sch: Schedule, gas: nat, left: nat, t: Tally, sendsValue: bool, taken: nat, back: nat, u: Tally)
    requires Balanced(gas, left, t) && t.Orderly() && taken <= left
    requires Balanced(taken + Stipend(sch, sendsValue), back, u) && u.Orderly()
    ensures var all := Both(Both(t, Granted(sch, sendsValue)), u);
            Balanced(gas, left - taken + back, all) && all.Orderly()
  {
    var stipend := Stipend(sch, sendsValue);
    GrantBalanced(sch, gas, left, t, sendsValue);
    NestedBalanced(gas, left + stipend, Both(t, Granted(sch, sendsValue)), taken + stipend, back, u);
  }

  lemma GrantBalanced(sch: Schedule, gas: nat, left: nat, t: Tally, sendsValue: bool)
    requires Balanced(gas, left, t) && t.Orderly()
    ensures var u := Both(t, Granted(sch, sendsValue));
            Balanced(gas, left + Stipend(sch, sendsValue), u) && u.Orderly()
  {
    if sendsValue {
      MoreGranted(gas, left, t, sch.callStipend, 1);
    } else {
      MoreGranted(gas, left, t, 0, 0);
    }
  }

  lemma MoreGranted(gas: nat, left: nat, t: Tally, stipend: nat, calls: nat)
    requires Balanced(gas, left, t) && t.Orderly() && (stipend > 0 ==> calls > 0)
    ensures var u := Both(t, Nothing.(stipends := stipend, valueCalls := calls));
            Balanced(gas, left + stipend, u) && u.Orderly()
  {
  }

  /** What one instruction comes to: the end of the frame, or the frame to go on with and what has been taken. */
  datatype Step<W> = Ends(r: Outcome<W>) | Goes(g: Frame<W>, more: nat, t: Tally)

  /** A call or creation that has been paid for, and the gas that goes along. */
  datatype Ready<W> = Ready(c: Frame<W>, taken: nat, paid: Tally)

  /** The charge of an instruction, the gas it leaves and where the rest went. */
  ghost predicate PaidFor<W>(sch: Schedule, f: Frame<W>, c: Frame<W>, t: Tally)
    requires sch.quadCoeffDiv > 0
  {
    && Balanced(f.gas, c.gas, t) && t.Orderly() && c.mem >= f.mem
    && c.memPaid - f.memPaid == MemCost(sch, c.mem) - MemCost(sch, f.mem)
  }

  function Pay<W>(sch: Schedule, f: Frame<W>, runGas: nat, need: nat, copy: nat): (r: Option<Ready<W>>)
    requires sch.Valid()
    ensures r.Some? ==>
              PaidFor(sch, f, r.value.c, r.value.paid) && r.value.c.gas + runGas <= f.gas && r.value.taken == 0
  {
    var c := Charge(sch, f, runGas, need, copy);
    if c.None? then None else
      ChargeBalanced(sch, f.gas, runGas, Growth(sch, f.mem, need), copy);
      Some(Ready(c.value, 0, Charged(sch, runGas, Growth(sch, f.mem, need), copy)))
  }

  /** What CALL itself costs: its base price with two surcharges, and the memory it grows. */
  ghost function CallPrice<W>(sch: Schedule, f: Frame<W>, a: Action<W>): int
    requires sch.quadCoeffDiv > 0 && a.Call?
  {
    sch.callGas + (if a.newAccount then sch.callNewAccountGas else 0)
    + (if a.sendsValue then sch.callValueTransferGas else 0)
    + (MemCost(sch, NewMem(f.mem, a.memNeed)) - MemCost(sch, f.mem))
  }

  /** The gas taken for the callee: all that is asked for, or under the later rule at most what leaves a 64th. */
  ghost predicate Takes(sch: Schedule, left: int, requested: nat, taken: int) {
    if sch.staticCallDepthLimit || requested <= left - left / 64 then taken == requested else taken == left - left / 64
  }

  /** The call can be paid for, and neither its memory price nor the gas it takes is too large to count. */
  ghost predicate Payable<W>(sch: Schedule, f: Frame<W>, a: Action<W>, taken: int)
    requires sch.quadCoeffDiv > 0 && a.Call?
  {
    && CallPrice(sch, f, a) + taken <= f.gas && taken <= MAX63
    && (NewMem(f.mem, a.memNeed) > f.mem ==> MemCost(sch, NewMem(f.mem, a.memNeed)) <= MAX63)
  }

  /** Gas is set aside for the callee and more than the stipend paid, or everything has burned. */
  ghost predicate SetUp<W>(sch: Schedule, gas: nat, p: Result<Ready<W>, Tally>, sendsValue: bool) {
    match p
    case Success(r) =>
      && Balanced(gas, r.c.gas, r.paid) && r.paid.Orderly() && r.taken <= r.c.gas
      && r.c.gas + Stipend(sch, sendsValue) < gas
    case Failure(t) => Balanced(gas, 0, t) && t.Orderly()
  }

  /** caseCallSetup: the price, and the gas to take along if it can be counted and paid. */
  function CallSetup<W>(sch: Schedule, f: Frame<W>, a: Action<W>): (r: Result<Ready<W>, Tally>)
    requires sch.Valid() && a.Call?
    ensures r.Success? ==>
              && PaidFor(sch, f, r.value.c, r.value.paid) && r.value.taken <= r.value.c.gas
              && r.value.c.gas + Stipend(sch, a.sendsValue) < f.gas
    ensures r.Success? ==>
              && r.value.c.gas == f.gas - CallPrice(sch, f, a) && r.value.c.mem == NewMem(f.mem, a.memNeed)
              && Takes(sch, r.value.c.gas, a.requested, r.value.taken) && Payable(sch, f, a, r.value.taken)
    ensures SetUp(sch, f.gas, r, a.sendsValue)
  {
    var p := Pay(sch, f, CallBase(sch, a.newAccount, a.sendsValue), a.memNeed, 0);
    if p.None? then Failure(Burnt(f.gas)) else
      var c, taken := p.value.c, CallGas(sch, p.value.c.gas, a.requested);
      if taken > MAX63 || c.gas < taken then
        BurntBalanced(f.gas, c.gas, p.value.paid);
        Failure(Both(p.value.paid, Burnt(c.gas)))
      else Success(Ready(c, taken, p.value.paid))
  }

  /** Back in the caller: it has what it did not take along, and what comes back. */
  function Called<W>(sch: Schedule, gas: nat, p: Ready<W>, a: Action<W>, back: Back<W>): (r: Step<W>)
    requires a.Call? && p.taken <= p.c.gas && Balanced(gas, p.c.gas, p.paid) && p.paid.Orderly()
    requires Balanced(p.taken + Stipend(sch, a.sendsValue), back.gas, back.tally) && back.tally.Orderly()
    ensures r.Goes? && r.g == p.c.(gas := p.c.gas - p.taken + back.gas, w := a.resume(back.left))
    ensures r.more == 1 + back.steps && Balanced(gas, r.g.gas, r.t) && r.t.Orderly()
  {
    CallBalanced(sch, gas, p.c.gas, p.paid, a.sendsValue, p.taken, back.gas, back.tally);
    Goes(p.c.(gas := p.c.gas - p.taken + back.gas, w := a.resume(back.left)), 1 + back.steps,
         Both(Both(p.paid, Granted(sch, a.sendsValue)), back.tally))
  }

  function Created<W>(sch: Schedule, gas: nat, p: Ready<W>, taken: nat, a: Action<W>, back: Back<W>): (r: Step<W>)
    requires a.Create? && taken <= p.c.gas && Balanced(gas, p.c.gas, p.paid) && p.paid.Orderly()
    requires Balanced(taken, back.gas, back.tally) && back.tally.Orderly() && back.gas <= taken
    ensures r.Goes? && r.g == p.c.(gas := p.c.gas - (taken - back.gas), w := a.resume(back.left))
    ensures r.more == 1 + back.steps && Balanced(gas, r.g.gas, r.t) && r.t.Orderly()
  {
    NestedBalanced(gas, p.c.gas, p.paid, taken, back.gas, back.tally);
    Goes(p.c.(gas := p.c.gas - (taken - back.gas), w := a.resume(back.left)), 1 + back.steps, Both(p.paid, back.tally))
  }

  /** VM::exec on `gas` at `depth`. */
  function Exec<W(!new)>(sch: Schedule, code: Contract<W>, depth: nat, gas: nat, entry: W): (r: Outcome<W>)
    requires sch.Valid() && Costly(code) && depth <= MAX_DEPTH
    ensures r.Left() + r.steps <= gas
    ensures r.Done? ==> r.memPaid == MemCost(sch, r.mem)
    ensures Balanced(gas, r.Left(), r.tally) && r.tally.Orderly()
    decreases MAX_DEPTH - depth, gas, 5
  {
    var r := Run(sch, code, depth, Frame(Low64(gas), 0, 0, entry));
    CutBalanced(gas, r.Left(), r.tally);
    After(r, 0, Cut(gas))
  }

  /** More instructions before `r`, and what they and everything they started took. */
  function After<W>(r: Outcome<W>, more: nat, t: Tally): Outcome<W> {
    r.(steps := r.steps + more, tally := Both(t, r.tally))
  }

  /** The rest of a frame's run. */
  function Run<W(!new)>(sch: Schedule, code: Contract<W>, depth: nat, f: Frame<W>): (r: Outcome<W>)
    requires sch.Valid() && Costly(code) && depth <= MAX_DEPTH
    ensures r.Left() + r.steps <= f.gas
    ensures r.Done? ==> r.mem >= f.mem && r.memPaid - f.memPaid == MemCost(sch, r.mem) - MemCost(sch, f.mem)
    ensures Balanced(f.gas, r.Left(), r.tally) && r.tally.Orderly()
    decreases MAX_DEPTH - depth, f.gas, 4
  {
    match StepOf(sch, code, depth, f)
    case Ends(r) => r
    case Goes(g, more, t) =>
      var r := Run(sch, code, depth, g);
      BothBalanced(t, r.tally);
      After(r, more, t)
  }

  /** One instruction, with everything it starts. */
  function StepOf<W(!new)>(sch: Schedule, code: Contract<W>, depth: nat, f: Frame<W>): (s: Step<W>)
    requires sch.Valid() && Costly(code) && depth <= MAX_DEPTH
    ensures s.Goes? ==> s.g.gas + s.more <= f.gas && s.more > 0 && PaidFor(sch, f, s.g, s.t)
    ensures s.Ends? ==> s.r.steps == 0 && Balanced(f.gas, s.r.Left(), s.r.tally) && s.r.tally.Orderly()
    ensures s.Ends? && s.r.Done? ==>
              s.r.mem >= f.mem && s.r.memPaid - f.memPaid == MemCost(sch, s.r.mem) - MemCost(sch, f.mem)
    ensures code(f.w, f.gas, f.mem).Call? ==> s == CallStep(sch, code, depth, f, code(f.w, f.gas, f.mem))
    decreases MAX_DEPTH - depth, f.gas, 3
  {
    match code(f.w, f.gas, f.mem)
    case Throw => Ends(Fault(0, Burnt(f.gas)))
    case Halt(run, need, outSize, w) =>
      (var p := Pay(sch, f, run, need, 0);
       if p.None? then Ends(Fault(0, Burnt(f.gas)))
       else Ends(Done(p.value.c.gas, p.value.c.mem, p.value.c.memPaid, outSize, w, 0, p.value.paid)))
    case Plain(run, need, copy, w) =>
      (var p := Pay(sch, f, run, need, copy);
       if p.None? then Ends(Fault(0, Burnt(f.gas))) else Goes(p.value.c.(w := w), 1, p.value.paid))
    case Call(_, _, _, _, _, _, _) => CallStep(sch, code, depth, f, code(f.w, f.gas, f.mem))
    case Create(_, _, _, _) => CreateStep(sch, code, depth, f, code(f.w, f.gas, f.mem))
  }

  function CallStep<W(!new)>(sch: Schedule, code: Contract<W>, depth: nat, f: Frame<W>, a: Action<W>): (s: Step<W>)
    requires sch.Valid() && Costly(code) && depth <= MAX_DEPTH && a.Call?
    ensures s.Goes? ==> s.g.gas + s.more <= f.gas && s.more > 0 && PaidFor(sch, f, s.g, s.t)
    ensures s.Ends? ==> s.r.Fault? && s.r.steps == 0 && Balanced(f.gas, 0, s.r.tally) && s.r.tally.Orderly()
    ensures s == AfterSetup(sch, code, depth, f.gas, CallSetup(sch, f, a), a)
    decreases MAX_DEPTH - depth, f.gas, 2
  {
    AfterSetup(sch, code, depth, f.gas, CallSetup(sch, f, a), a)
  }

  /**
   The call itself: the caller keeps what it did not take along and has all that comes back. A call that cannot be made,
   or goes to an account without code, costs nothing more and brings the stipend.
   */
  function AfterSetup<W(!new)>(sch: Schedule, code: Contract<W>, depth: nat, gas: nat, p: Result<Ready<W>, Tally>,
      a: Action<W>): (s: Step<W>)
    requires sch.Valid() && Costly(code) && depth <= MAX_DEPTH && a.Call? && SetUp(sch, gas, p, a.sendsValue)
    ensures s.Goes? <==> p.Success?
    ensures p.Success? ==>
              var back := CallBack(sch, code, depth, p.value.taken + Stipend(sch, a.sendsValue), a);
              && s.more == 1 + back.steps && s.g.gas + s.more <= gas && Balanced(gas, s.g.gas, s.t) && s.t.Orderly()
              && s.g == p.value.c.(gas := p.value.c.gas - p.value.taken + back.gas, w := a.resume(back.left))
    ensures p.Success? && Idle(a, depth) ==>
              s.g.gas == p.value.c.gas + if a.sendsValue then sch.callStipend else 0
    ensures p.Failure? ==> s == Ends(Fault(0, p.error))
    decreases MAX_DEPTH - depth, 0, 1
  {
    if p.Failure? then Ends(Fault(0, p.error)) else
      var back := CallBack(sch, code, depth, p.value.taken + Stipend(sch, a.sendsValue), a);
      Called(sch, gas, p.value, a, back)
  }

  function CreateStep<W(!new)>(sch: Schedule, code: Contract<W>, depth: nat, f: Frame<W>, a: Action<W>): (s: Step<W>)
    requires sch.Valid() && Costly(code) && depth <= MAX_DEPTH && a.Create?
    ensures s.Goes? ==> s.g.gas + s.more <= f.gas && s.more > 0 && PaidFor(sch, f, s.g, s.t)
    ensures s.Ends? ==> s.r.Fault? && s.r.steps == 0 && Balanced(f.gas, 0, s.r.tally) && s.r.tally.Orderly()
    ensures s == AfterPay(sch, code, depth, f.gas, Pay(sch, f, sch.createGas, a.memNeed, 0), a)
    decreases MAX_DEPTH - depth, f.gas, 2
  {
    AfterPay(sch, code, depth, f.gas, Pay(sch, f, sch.createGas, a.memNeed, 0), a)
  }

  /**
   The creation itself, if its price has been paid: it takes along what is left, under the later rule all but a 64th,
   and has back what comes back.
   */
  function AfterPay<W(!new)>(sch: Schedule, code: Contract<W>, depth: nat, gas: nat, p: Option<Ready<W>>,
      a: Action<W>): (s: Step<W>)
    requires sch.Valid() && Costly(code) && depth <= MAX_DEPTH && a.Create?
    requires p.Some? ==> Balanced(gas, p.value.c.gas, p.value.paid) && p.value.paid.Orderly() && p.value.c.gas < gas
    ensures s.Goes? <==> p.Some?
    ensures p.Some? ==>
              var left, taken := p.value.c.gas, CreateGas(sch, p.value.c.gas);
              var back := CreateBack(sch, code, depth, taken, a);
              && s.more == 1 + back.steps && s.g.gas + s.more <= gas && Balanced(gas, s.g.gas, s.t) && s.t.Orderly()
              && s.g == p.value.c.(gas := left - taken + back.gas, w := a.resume(back.left))
    ensures p.None? ==> s == Ends(Fault(0, Burnt(gas)))
    decreases MAX_DEPTH - depth, 0, 1
  {
    if p.None? then Ends(Fault(0, Burnt(gas))) else
      var taken := CreateGas(sch, p.value.c.gas);
      Created(sch, gas, p.value, taken, a, CreateBack(sch, code, depth, taken, a))
  }

  /** The call cannot be made, or goes to an account without code. */
  predicate Idle<W>(a: Action<W>, depth: nat)
    requires a.Call?
  {
    !a.affordable || depth >= MAX_DEPTH || a.callee.NoCode?
  }

  /** What comes back of a call: everything if it cannot be made. */
  function CallBack<W(!new)>(sch: Schedule, code: Contract<W>, depth: nat, passed: nat, a: Action<W>): (r: Back<W>)
    requires sch.Valid() && Costly(code) && depth <= MAX_DEPTH && a.Call?
    ensures r.gas + r.steps <= passed
    ensures Idle(a, depth) ==> r == Back(passed, 0, None, Nothing)
    ensures Balanced(passed, r.gas, r.tally) && r.tally.Orderly()
    decreases MAX_DEPTH - depth, 0, 0
  {
    if a.affordable && depth < MAX_DEPTH then EnterCall(sch, code, depth + 1, passed, a.callee)
    else Back(passed, 0, None, Nothing)
  }

  function CreateBack<W(!new)>(sch: Schedule, code: Contract<W>, depth: nat, taken: nat, a: Action<W>): (r: Back<W>)
    requires sch.Valid() && Costly(code) && depth <= MAX_DEPTH && a.Create?
    ensures r.gas + r.steps <= taken
    ensures Balanced(taken, r.gas, r.tally) && r.tally.Orderly()
    decreases MAX_DEPTH - depth, 0, 0
  {
    if a.affordable && depth < MAX_DEPTH then EnterCreate(sch, code, depth + 1, taken, a.init)
    else Back(taken, 0, None, Nothing)
  }

  /** Executive::call and go: the gas handed back. */
  function EnterCall<W(!new)>(sch: Schedule, code: Contract<W>, depth: nat, gas: nat, callee: Callee<W>): (r: Back<W>)
    requires sch.Valid() && Costly(code) && depth <= MAX_DEPTH
    ensures r.gas + r.steps <= gas
    ensures Balanced(gas, r.gas, r.tally) && r.tally.Orderly()
    decreases MAX_DEPTH - depth, gas, 6
  {
    match callee
    case Precompiled(cost) =>
      if gas < cost then Back(0, 0, None, Burnt(gas)) else Back(gas - cost, 0, None, Nothing.(services := cost))
    case NoCode => Back(gas, 0, None, Nothing)
    case Contract(entry) =>
      var r := Exec(sch, code, depth, gas, entry);
      if r.Fault? then Back(0, r.steps, None, r.tally) else Back(r.gas, r.steps, Some(r.w), r.tally)
  }

  /** Executive::create and go: the code deposit is paid out of what the initialiser leaves. */
  function EnterCreate<W(!new)>(sch: Schedule, code: Contract<W>, depth: nat, gas: nat, init: Option<W>): (r: Back<W>)
    requires sch.Valid() && Costly(code) && depth <= MAX_DEPTH
    ensures r.gas + r.steps <= gas
    ensures Balanced(gas, r.gas, r.tally) && r.tally.Orderly()
    decreases MAX_DEPTH - depth, gas, 6
  {
    if init.None? then Back(gas, 0, None, Nothing) else
      var r := Exec(sch, code, depth, gas, init.value);
      if r.Fault? then Back(0, r.steps, None, r.tally) else
        var deposit := r.outSize * sch.createDataGas;
        BothBalanced(r.tally, Burnt(r.gas));
        if r.outSize > sch.maxCodeSize then Back(0, r.steps, None, Both(r.tally, Burnt(r.gas)))
        else if deposit <= r.gas then
          BothBalanced(r.tally, Nothing.(services := deposit));
          Back(r.gas - deposit, r.steps, Some(r.w), Both(r.tally, Nothing.(services := deposit)))
        else if sch.failedDepositThrows then Back(0, r.steps, None, Both(r.tally, Burnt(r.gas)))
        else Back(r.gas, r.steps, Some(r.w), r.tally)
  }

  lemma PayableSucceeds<W>(sch: Schedule, f: Frame<W>, a: Action<W>, taken: nat)
    requires sch.Valid() && a.Call? && CallPrice(sch, f, a) <= f.gas
    requires Takes(sch, f.gas - CallPrice(sch, f, a), a.requested, taken) && Payable(sch, f, a, taken)
    ensures var p := CallSetup(sch, f, a);
            p.Success? && p.value.taken == taken && p.value.c.gas == f.gas - CallPrice(sch, f, a)
  {
    assert CopyCost(sch, 0) == 0;
  }

  /** Under the later rule the caller keeps at least a 64th of what it had left, whatever the callee does. */
  lemma A64thStays<W(!new)>(sch: Schedule, code: Contract<W>, depth: nat, gas: nat, p: Result<Ready<W>, Tally>,
      a: Action<W>)
    requires sch.Valid() && Costly(code) && depth <= MAX_DEPTH && a.Call? && !sch.staticCallDepthLimit
    requires SetUp(sch, gas, p, a.sendsValue) && p.Success?
    requires Takes(sch, p.value.c.gas, a.requested, p.value.taken)
    ensures 64 * AfterSetup(sch, code, depth, gas, p, a).g.gas >= p.value.c.gas - 63
  {
  }

  /** An instruction's price: its own, the memory it grows and the words it copies. */
  ghost predicate Costs<W>(sch: Schedule, f: Frame<W>, run: nat, need: nat, copy: nat, price: int)
    requires sch.quadCoeffDiv > 0
  {
    price == run + (MemCost(sch, NewMem(f.mem, need)) - MemCost(sch, f.mem)) + CopyCost(sch, copy)
  }

  ghost predicate Affordable<W>(sch: Schedule, f: Frame<W>, need: nat, price: int)
    requires sch.quadCoeffDiv > 0
  {
    price <= f.gas && (NewMem(f.mem, need) > f.mem ==> MemCost(sch, NewMem(f.mem, need)) <= MAX63)
  }

  lemma PayMeans<W>(sch: Schedule, f: Frame<W>, run: nat, need: nat, copy: nat, price: int)
    requires sch.Valid() && Costs(sch, f, run, need, copy, price)
    ensures var p := Pay(sch, f, run, need, copy);
            if Affordable(sch, f, need, price) then
              p.Some? && p.value.c.gas == f.gas - price && p.value.c.mem == NewMem(f.mem, need) && p.value.c.w == f.w
            else p.None?
  {
  }

  /** An instruction that only runs goes on with its price paid, or faults if it cannot be paid. */
  lemma PlainGoes<W(!new)>(sch: Schedule, code: Contract<W>, depth: nat, f: Frame<W>, price: int)
    requires sch.Valid() && Costly(code) && depth <= MAX_DEPTH && code(f.w, f.gas, f.mem).Plain?
    requires var a := code(f.w, f.gas, f.mem); Costs(sch, f, a.runGas, a.memNeed, a.copySize, price)
    ensures var a, s := code(f.w, f.gas, f.mem), StepOf(sch, code, depth, f);
            if Affordable(sch, f, a.memNeed, price) then
              s.Goes? && s.g.gas == f.gas - price && s.g.mem == NewMem(f.mem, a.memNeed) && s.g.w == a.next
            else s.Ends? && s.r.Fault?
  {
    var a := code(f.w, f.gas, f.mem);
    PayMeans(sch, f, a.runGas, a.memNeed, a.copySize, price);
  }

  /** A halt ends with its price paid, or faults. */
  lemma HaltEnds<W(!new)>(sch: Schedule, code: Contract<W>, depth: nat, f: Frame<W>, price: int)
    requires sch.Valid() && Costly(code) && depth <= MAX_DEPTH && code(f.w, f.gas, f.mem).Halt?
    requires var a := code(f.w, f.gas, f.mem); Costs(sch, f, a.runGas, a.memNeed, 0, price)
    ensures var a, s := code(f.w, f.gas, f.mem), StepOf(sch, code, depth, f);
            s.Ends? && (s.r.Done? <==> Affordable(sch, f, a.memNeed, price))
            && (s.r.Done? ==> s.r.gas == f.gas - price && s.r.outSize == a.outSize && s.r.w == a.last)
  {
    var a := code(f.w, f.gas, f.mem);
    PayMeans(sch, f, a.runGas, a.memNeed, 0, price);
  }

  /** A call or creation that can be made is made, one level deeper, and otherwise everything comes back. */
  lemma MadeIfPossible<W(!new)>(sch: Schedule, code: Contract<W>, depth: nat, gas: nat, a: Action<W>)
    requires sch.Valid() && Costly(code) && depth <= MAX_DEPTH
    ensures a.Call? && a.affordable && depth < MAX_DEPTH ==>
              CallBack(sch, code, depth, gas, a) == EnterCall(sch, code, depth + 1, gas, a.callee)
    ensures a.Create? && a.affordable && depth < MAX_DEPTH ==>
              CreateBack(sch, code, depth, gas, a) == EnterCreate(sch, code, depth + 1, gas, a.init)
    ensures a.Create? && !(a.affordable && depth < MAX_DEPTH) ==> CreateBack(sch, code, depth, gas, a).gas == gas
  {
  }

  /** A precompiled contract takes its price or everything; a contract hands back what its execution leaves. */
  lemma CalleeLeaves<W(!new)>(sch: Schedule, code: Contract<W>, depth: nat, gas: nat, callee: Callee<W>)
    requires sch.Valid() && Costly(code) && depth <= MAX_DEPTH
    ensures var back := EnterCall(sch, code, depth, gas, callee);
            match callee
            case Precompiled(cost) => back.gas == if gas >= cost then gas - cost else 0
            case NoCode => back.gas == gas
            case Contract(entry) => back.gas == Exec(sch, code, depth, gas, entry).Left()
  {
  }

  /**
   A creation pays for the code it returns, byte by byte, or without the
   later rule keeps the gas and drops the code.
   */
  lemma DepositPaid<W(!new)>(sch: Schedule, code: Contract<W>, depth: nat, gas: nat, init: W)
    requires sch.Valid() && Costly(code) && depth <= MAX_DEPTH && Exec(sch, code, depth, gas, init).Done?
    ensures var r, back := Exec(sch, code, depth, gas, init), EnterCreate(sch, code, depth, gas, Some(init));
            && (r.outSize > sch.maxCodeSize ==> back.gas == 0 && back.left == None)
            && (r.outSize <= sch.maxCodeSize && r.outSize * sch.createDataGas <= r.gas ==>
                  back.gas + r.outSize * sch.createDataGas == r.gas && back.left == Some(r.w))
            && (r.outSize <= sch.maxCodeSize && r.outSize * sch.createDataGas > r.gas ==>
                  if sch.failedDepositThrows then back.gas == 0 && back.left == None
                  else back.gas == r.gas && back.left == Some(r.w))
  {
  }

  /** A call instruction is the call step above. */
  lemma CallIsStep<W(!new)>(sch: Schedule, code: Contract<W>, depth: nat, f: Frame<W>)
    requires sch.Valid() && Costly(code) && depth <= MAX_DEPTH && code(f.w, f.gas, f.mem).Call?
    ensures StepOf(sch, code, depth, f) == CallStep(sch, code, depth, f, code(f.w, f.gas, f.mem))
  {
  }

  /** A frame goes on where its next instruction leaves it. */
  lemma RunGoes<W(!new)>(sch: Schedule, code: Contract<W>, depth: nat, f: Frame<W>)
    requires sch.Valid() && Costly(code) && depth <= MAX_DEPTH && StepOf(sch, code, depth, f).Goes?
    ensures var s := StepOf(sch, code, depth, f);
            Run(sch, code, depth, f) == After(Run(sch, code, depth, s.g), s.more, s.t)
  {
  }

  // ----- Prices -----

  /** Memory is counted in words of 32 bytes, as many as are needed. */
  lemma WordsMean(mem: nat, need: nat)
    ensures NewMem(mem, need) % 32 == 0 || NewMem(mem, need) == mem
    ensures NewMem(mem, need) == mem || (mem < NewMem(mem, need) < need + 32)
    ensures NewMem(mem, need) >= need
  {
  }

  /** A word costs memoryGas, and n words a quadratic surcharge of n * n / quadCoeffDiv, rounded down. */
  lemma MemCostMeans(sch: Schedule, words: nat)
    requires sch.quadCoeffDiv > 0
    ensures var surcharge := MemCost(sch, 32 * words) - sch.memoryGas * words;
            sch.quadCoeffDiv * surcharge <= words * words < sch.quadCoeffDiv * (surcharge + 1)
  {
    assert 32 * words / 32 == words;
    var x, d := words * words, sch.quadCoeffDiv;
    assert x == d * (x / d) + x % d;
    assert d * (x / d + 1) == d * (x / d) + d;
  }

  /** Copying is paid per started word. */
  lemma CopyCostMeans(sch: Schedule, copy: nat) returns (words: nat)
    ensures CopyCost(sch, copy) == words * sch.copyGas && 32 * words >= copy && (words > 0 ==> 32 * (words - 1) < copy)
  {
    words := (copy + 31) / 32;
  }

  // ----- Why the assumptions on the schedule -----

  /** What a frame holds after a call that could not be made: the taken gas comes back with the stipend. */
  function AfterRefusedCall(sch: Schedule, gas: nat, requested: nat, sendsValue: bool): Option<nat>
    requires sch.quadCoeffDiv > 0
  {
    var c := Charge(sch, Frame(gas, 0, 0, ()), CallBase(sch, false, sendsValue), 0, 0);
    if c.None? then None else
      var taken := CallGas(sch, c.value.gas, requested);
      if taken > MAX63 || c.value.gas < taken then None
      else Some(c.value.gas - taken + (taken + if sendsValue then sch.callStipend else 0))
  }

  /** Refused calls cost gas under a schedule exactly if calling is not free and the stipend is covered. */
  lemma RefusedCallsCost(sch: Schedule)
    requires sch.quadCoeffDiv > 0
    ensures (forall gas: nat, requested: nat, v: bool {:trigger AfterRefusedCall(sch, gas, requested, v)} ::
               AfterRefusedCall(sch, gas, requested, v).Some? ==> AfterRefusedCall(sch, gas, requested, v).value < gas)
       <==> (sch.callGas > 0 && sch.callStipend < sch.callGas + sch.callValueTransferGas)
  {
    var g := sch.callGas + sch.callValueTransferGas;
    assert NewMem(0, 0) == 0 && CopyCost(sch, 0) == 0;
    assert AfterRefusedCall(sch, g, 0, true) == Some(sch.callStipend);
    assert AfterRefusedCall(sch, sch.callGas, 0, false) == Some(0);
    if sch.callGas == 0 { assert AfterRefusedCall(sch, 0, 0, false) == Some(0); }
  }
}
