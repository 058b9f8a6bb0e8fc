/**
 The interpreter's metering fields (updateGas, updateMem, updateIOGas and
 caseCallSetup), changed in place and proved against the charges of VmGas.
 An out-of-gas exception is the result `false` or `None`.
 */
module VmMeter {
  import opened Wrappers
  import opened VmGas

  class Meter {
    const sch: Schedule
    var ioGas: nat
    var runGas: nat
    var newMemSize: nat
    var copyMemSize: nat
    var memSize: nat

    constructor (sch: Schedule, gas: nat)
      ensures this.sch == sch && ioGas == Low64(gas) && memSize == 0
    {
      this.sch := sch;
      ioGas := Low64(gas);
      runGas, newMemSize, copyMemSize, memSize := 0, 0, 0, 0;
    }

    /** Adds the price of growing memory and of copying to `runGas`. */
    method UpdateGas() returns (ok: bool)
      requires sch.Valid()
      modifies this`runGas
      ensures ok <==>
        !(newMemSize > memSize && MemCost(sch, newMemSize) > MAX63)
        && ioGas >= old(runGas) + (if newMemSize > memSize then MemCost(sch, newMemSize) - MemCost(sch, memSize) else 0)
                    + CopyCost(sch, copyMemSize)
      ensures ok ==> runGas == old(runGas) + CopyCost(sch, copyMemSize)
                               + if newMemSize > memSize then MemCost(sch, newMemSize) - MemCost(sch, memSize) else 0
    {
      if newMemSize > memSize {
        if MemCost(sch, newMemSize) > MAX63 { return false; }
        MemCostMono(sch, memSize, newMemSize);
        runGas := runGas + (MemCost(sch, newMemSize) - MemCost(sch, memSize));
      }
      runGas := runGas + sch.copyGas * ((copyMemSize + 31) / 32);
      ok := ioGas >= runGas;
    }

    method UpdateMem() returns (ok: bool)
      requires sch.Valid()
      modifies this`runGas, this`newMemSize, this`memSize
      ensures ok <==>
        !(NewMem(old(memSize), old(newMemSize)) > old(memSize) &&
            MemCost(sch, NewMem(old(memSize), old(newMemSize))) > MAX63)
        && ioGas >= old(runGas) + Growth(sch, old(memSize), old(newMemSize)) + CopyCost(sch, copyMemSize)
      ensures ok ==> memSize == NewMem(old(memSize), old(newMemSize))
      ensures ok ==> runGas == old(runGas) + Growth(sch, old(memSize), old(newMemSize)) + CopyCost(sch, copyMemSize)
    {
      newMemSize := (newMemSize + 31) / 32 * 32;
      ok := UpdateGas();
      if ok && newMemSize > memSize {
        memSize := newMemSize;
      }
    }

    method UpdateIOGas() returns (ok: bool)
      modifies this`ioGas
      ensures ok <==> old(ioGas) >= runGas
      ensures ioGas == if ok then old(ioGas) - runGas else old(ioGas)
    {
      if ioGas < runGas { return false; }
      ioGas := ioGas - runGas;
      ok := true;
    }

    /** One instruction: its own gas, the memory it reaches and the bytes it copies. */
    method Pay(run: nat, need: nat, copy: nat) returns (ok: bool)
      requires sch.Valid()
      modifies this
      ensures var c := Charge(sch, Frame(old(ioGas), old(memSize), 0, ()), run, need, copy);
              (ok <==> c.Some?) && (ok ==> ioGas == c.value.gas && memSize == c.value.mem)
    {
      runGas, newMemSize, copyMemSize := run, need, copy;
      ok := UpdateMem();
      if ok {
        ok := UpdateIOGas();
      }
    }

    /** The gas part of caseCallSetup: what the callee may spend, stipend included. */
    method CallSetup(need: nat, newAccount: bool, sendsValue: bool, requested: nat) returns (passed: Option<nat>)
      requires sch.Valid()
      modifies this
      ensures var c := Charge(sch, Frame(old(ioGas), old(memSize), 0, ()), CallBase(sch, newAccount, sendsValue),
                need, 0);
              && (passed.Some? <==> c.Some? && CallGas(sch, c.value.gas, requested) <= MAX63
                                    && CallGas(sch, c.value.gas, requested) <= c.value.gas)
              && (passed.Some? ==>
                    && ioGas == c.value.gas - CallGas(sch, c.value.gas, requested)
                    && passed.value == CallGas(sch, c.value.gas, requested) +
                          (if sendsValue then sch.callStipend else 0)
                    && memSize == c.value.mem)
      ensures passed.Some? ==>
                var price := sch.callGas + (if newAccount then sch.callNewAccountGas else 0)
                             + (if sendsValue then sch.callValueTransferGas else 0)
                             + (MemCost(sch, memSize) - MemCost(sch, old(memSize)));
                var taken := passed.value - (if sendsValue then sch.callStipend else 0);
                ioGas == old(ioGas) - price - taken && Takes(sch, old(ioGas) - price, requested, taken)
    {
      SetupMeans(sch, Frame(ioGas, memSize, 0, ()), need, newAccount, sendsValue, requested);
      var base := sch.callGas;
      if newAccount { base := base + sch.callNewAccountGas; }
      if sendsValue { base := base + sch.callValueTransferGas; }
      var ok := Pay(base, need, 0);
      if !ok { return None; }
      var gas := TakeAlong(requested);
      if gas.None? { return None; }
      passed := Some(if sendsValue then gas.value + sch.callStipend else gas.value);
    }

    /** The gas for the callee, under the rule of the schedule. */
    method TakeAlong(requested: nat) returns (taken: Option<nat>)
      modifies this`runGas, this`ioGas
      ensures var gas := CallGas(sch, old(ioGas), requested);
              (taken.Some? <==> gas <= MAX63 && gas <= old(ioGas))
              && (taken.Some? ==> taken.value == gas && ioGas == old(ioGas) - gas)
    {
      var gas := requested;
      if !sch.staticCallDepthLimit {
        var most := ioGas - ioGas / 64;
        if most < gas { gas := most; }
      }
      if gas > MAX63 { return None; }
      runGas := gas;
      var ok := UpdateIOGas();
      taken := if ok then Some(gas) else None;
    }

    /** After a call, or one that could not be made: the callee's gas comes back. */
    method CallDone(back: nat)
      modifies this`ioGas
      ensures ioGas == old(ioGas) + back
    {
      ioGas := ioGas + back;
    }

    method SetUp<W>(a: Action<W>, ghost f: Frame<W>) returns (passed: Option<nat>)
      requires sch.Valid() && a.Call? && f.gas == ioGas && f.mem == memSize
      modifies this
      ensures var p := VmGas.CallSetup(sch, f, a);
              (passed.Some? <==> p.Success?)
              && (passed.Some? ==> ioGas == p.value.c.gas - p.value.taken && memSize == p.value.c.mem
                                   && passed.value == p.value.taken + Stipend(sch, a.sendsValue))
    {
      SetupAgrees(sch, f, a);
      passed := CallSetup(a.memNeed, a.newAccount, a.sendsValue, a.requested);
    }

    /** The call and its end: the meter is that of the frame the gas model goes on with. */
    method FinishCall<W(!new)>(code: Contract<W>, depth: nat, a: Action<W>, passed: nat, ghost gas: nat,
        ghost p: Result<Ready<W>, Tally>) returns (left: Option<W>)
      requires sch.Valid() && Costly(code) && depth <= MAX_DEPTH && a.Call? && VmGas.SetUp(sch, gas, p, a.sendsValue)
      requires p.Success? && ioGas == p.value.c.gas - p.value.taken
      requires passed == p.value.taken + Stipend(sch, a.sendsValue)
      modifies this`ioGas
      ensures var s := AfterSetup(sch, code, depth, gas, p, a);
              ioGas == s.g.gas && a.resume(left) == s.g.w
    {
      var back := CallBack(sch, code, depth, passed, a);
      CallDone(back.gas);
      left := back.left;
    }

    /** caseCall. */
    method CaseCall<W(!new)>(code: Contract<W>, depth: nat, a: Action<W>, ghost f: Frame<W>)
      returns (ok: bool, left: Option<W>, ghost p: Result<Ready<W>, Tally>)
      requires sch.Valid() && Costly(code) && depth <= MAX_DEPTH && a.Call? && f.gas == ioGas && f.mem == memSize
      modifies this
      ensures p == VmGas.CallSetup(sch, f, a) && (ok <==> p.Success?)
      ensures ok ==>
                var s := AfterSetup(sch, code, depth, f.gas, p, a);
                ioGas == s.g.gas && memSize == s.g.mem && a.resume(left) == s.g.w
    {
      p := VmGas.CallSetup(sch, f, a);
      var passed := SetUp(a, f);
      ok, left := passed.Some?, None;
      if ok {
        left := FinishCall(code, depth, a, passed.value, f.gas, p);
      }
    }
  }

  /** What is charged and taken, in terms of the schedule. */
  lemma SetupMeans(sch: Schedule, f: Frame<()>, need: nat, newAccount: bool, sendsValue: bool, requested: nat)
    requires sch.Valid()
    ensures var c := Charge(sch, f, CallBase(sch, newAccount, sendsValue), need, 0);
            c.Some? ==>
              var price := sch.callGas + (if newAccount then sch.callNewAccountGas else 0)
                           + (if sendsValue then sch.callValueTransferGas else 0)
                           + (MemCost(sch, c.value.mem) - MemCost(sch, f.mem));
              c.value.gas == f.gas - price && Takes(sch, c.value.gas, requested, CallGas(sch, c.value.gas, requested))
  {
    assert CopyCost(sch, 0) == 0;
  }

  /** The setup of the gas model, in terms of the charge. */
  lemma SetupAgrees<W>(sch: Schedule, f: Frame<W>, a: Action<W>)
    requires sch.Valid() && a.Call?
    ensures var c := Charge(sch, Frame(f.gas, f.mem, 0, ()), CallBase(sch, a.newAccount, a.sendsValue), a.memNeed, 0);
            var p := VmGas.CallSetup(sch, f, a);
            && (p.Success? <==> c.Some? && CallGas(sch, c.value.gas, a.requested) <= MAX63
                                && CallGas(sch, c.value.gas, a.requested) <= c.value.gas)
            && (p.Success? ==> p.value.c.gas == c.value.gas && p.value.c.mem == c.value.mem
                               && p.value.taken == CallGas(sch, c.value.gas, a.requested))
  {
  }
}
