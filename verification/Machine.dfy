/** The global hardware state and the procedures of memory.c, cpu.c, syscalls.c and dma.c that change it in place. */
module MachineState {
  import opened Definitions
  import opened Words
  import P = Processor
  import opened DiskDrive

  class Machine {
    var cpu: Cpu
    const ram: array<int>
    const disk: Disk
    var dma: Dma
    var pending: set<Irq>
    var related: int
    var osYield: bool
    const table: array<Pcb>
    var current: int
    var monitor: bool
    var output: seq<P.Event>

    ghost predicate Valid() {
      ram.Length == RAM_SIZE && table.Length == MAX_PROCESSES && disk.Valid()
    }

    ghost function Hw(): P.Hw
      requires Valid()
      reads this, ram, disk.cells
    {
      P.Hw(cpu, ram[..], disk.Image(), dma, pending, related, osYield)
    }

    constructor ()
      ensures Valid() && fresh(ram) && fresh(table) && fresh(disk) && fresh(disk.cells)
      ensures cpu == ZERO_CPU && pending == {} && !osYield && current == -1 && !monitor && output == []
      ensures forall i :: 0 <= i < MAX_PROCESSES ==> table[i].state == Finished
      ensures forall a :: 0 <= a < RAM_SIZE ==> ram[a] == 0
      ensures forall a :: 0 <= a < DISK_SIZE ==> disk.Image()[a] == 0
    {
      cpu := ZERO_CPU;
      ram := new int[RAM_SIZE](_ => 0);
      disk := new Disk();
      dma := Dma(0, 0, 0, 0, 0, 0);
      pending, related, osYield := {}, 0, false;
      table := new Pcb[MAX_PROCESSES](_ => Pcb(-1, Finished, ZERO_CPU, "", 0, 0, 0));
      current, monitor, output := -1, false, [];
    }

    // -------------------------------------------------------------- memory.c

    method GetPhysicalAddress(logical: int) returns (phys: int, status: P.MemStatus)
      ensures status == P.AccessStatus(cpu, logical)
      ensures phys == if status == P.MemOk then P.PhysicalAddress(cpu, logical) else -1
      ensures status == P.MemOk ==> 0 <= phys < RAM_SIZE && (cpu.mode != MODE_KERNEL ==> cpu.rb <= phys <= cpu.rl)
    {
      if cpu.mode == MODE_KERNEL {
        phys := logical;
      } else {
        phys := logical + cpu.rb;
      }
      if cpu.mode != MODE_KERNEL && (phys < cpu.rb || phys > cpu.rl) {
        return -1, P.Protection;
      }
      if phys < 0 || phys >= RAM_SIZE {
        return -1, P.OutOfBounds;
      }
      status := P.MemOk;
    }

    /** `otherwise` is the previous content of the caller's out-variable. */
    method ReadMemory(logical: int, otherwise: int) returns (status: P.MemStatus, data: int)
      requires Valid()
      ensures status == P.AccessStatus(cpu, logical) && data == P.Read(Hw(), logical, otherwise)
    {
      var phys;
      phys, status := GetPhysicalAddress(logical);
      data := if status == P.MemOk then ram[phys] else otherwise;
    }

    method WriteMemory(logical: int, data: int) returns (status: P.MemStatus)
      requires Valid()
      modifies ram
      ensures status == P.WriteStatus(cpu, logical, data) && Hw() == P.Write(old(Hw()), logical, data)
    {
      if !Storable(data) {
        return P.InvalidData;
      }
      var phys;
      phys, status := GetPhysicalAddress(logical);
      if status == P.MemOk {
        ram[phys] := data;
      }
    }

    // -------------------------------------------------------------- interrupts

    method UpdatePswFlags()
      modifies `cpu
      ensures cpu == P.UpdateFlags(old(cpu))
    {
      if cpu.ac == 0 {
        cpu := cpu.(cc := CC_ZERO);
      } else if cpu.ac >= SIGN_BIT {
        cpu := cpu.(cc := CC_NEG);
      } else {
        cpu := cpu.(cc := CC_POS);
      }
    }

    /** intToWord applied to the CPU's own PSW. */
    method Encode(v: int) returns (w: int)
      modifies `cpu
      ensures w == IntToWord(v) && cpu == old(cpu).(cc := CodeOf(v))
    {
      var magnitude := if v >= 0 then v else -v;
      if magnitude > MAX_MAGNITUDE {
        cpu := cpu.(cc := CC_OVERFLOW);
        magnitude := magnitude % (MAX_MAGNITUDE + 1);
      } else if v == 0 {
        cpu := cpu.(cc := CC_ZERO);
      } else if v < 0 {
        cpu := cpu.(cc := CC_NEG);
      } else {
        cpu := cpu.(cc := CC_POS);
      }
      w := magnitude;
      if v < 0 && magnitude != 0 {
        w := w + SIGN_BIT;
      }
    }

    method InternalPush(w: int)
      requires Valid()
      modifies `cpu, ram
      ensures Hw() == P.Push(old(Hw()), w)
    {
      cpu := cpu.(sp := cpu.sp - 1);
      var _ := WriteMemory(cpu.sp, w);
    }

    method InternalPop() returns (w: int)
      requires Valid()
      modifies `cpu
      ensures w == P.Popped(old(Hw())) && Hw() == old(Hw()).(cpu := old(cpu).(sp := old(cpu.sp) + 1))
    {
      var _, data := ReadMemory(cpu.sp, 0);
      w := data;
      cpu := cpu.(sp := cpu.sp + 1);
    }

    method SaveContext()
      requires Valid()
      modifies `cpu, ram
      ensures Hw() == P.SaveContext(old(Hw()))
    {
      P.SaveUnrolled(Hw());
      InternalPush(cpu.rx);
      InternalPush(cpu.rl);
      InternalPush(cpu.rb);
      InternalPush(cpu.mode);
      InternalPush(cpu.cc);
      InternalPush(cpu.pc);
      InternalPush(cpu.ac);
    }

    method PopRegister(r: P.Register)
      requires Valid()
      modifies `cpu
      ensures Hw() == P.PopInto(old(Hw()), r)
    {
      var w := InternalPop();
      AssignCpu(P.Assign(cpu, r, w));
    }

    method RestoreContext(code: Irq)
      requires Valid()
      modifies `cpu
      ensures Hw() == P.RestoreContext(old(Hw()), code)
    {
      hide P.RestoreContext, P.Popped;
      ghost var before := Hw();
      RestoreShape(before, code);
      var savedAc := InternalPop();
      if code != Overflow && code != Underflow {
        AssignCpu(cpu.(ac := savedAc));
      }
      RestoreOthers();
    }

    /** The accumulator's word is popped first and kept or dropped; the other six follow. */
    lemma RestoreShape(m: P.Hw, code: Irq)
      ensures var ac := if code != Overflow && code != Underflow then P.Popped(m) else m.cpu.ac;
              P.RestoreContext(m, code) == P.AfterAccumulator(m.(cpu := m.cpu.(sp := m.cpu.sp + 1, ac := ac)))
    {
      hide P.AfterAccumulator, P.Popped, P.PopAll;
      P.PopUnrolled(m);
      AccumulatorApart(P.PopInto(m, P.Ac), m.cpu.ac);
      AccumulatorApart(P.PopInto(m, P.Ac), P.Popped(m));
      AccumulatorKept(P.PopInto(m, P.Ac));
    }

    lemma AccumulatorKept(m: P.Hw)
      ensures P.AfterAccumulator(m).cpu.ac == m.cpu.ac
    {
      AccumulatorApart(m, m.cpu.ac);
      hide P.AfterAccumulator;
    }

    method RestoreOthers()
      requires Valid()
      modifies `cpu
      ensures Hw() == P.AfterAccumulator(old(Hw()))
    {
      hide P.PopInto;
      PopRegister(P.Pc);
      PopRegister(P.Cc);
      PopRegister(P.Mode);
      PopRegister(P.Rb);
      PopRegister(P.Rl);
      PopRegister(P.Rx);
    }

    /** Later pops neither read nor write the accumulator. */
    lemma AccumulatorApart(m: P.Hw, ac: int)
      ensures P.AfterAccumulator(m.(cpu := m.cpu.(ac := ac))) == var r := P.AfterAccumulator(m); r.(cpu := r.cpu.(ac := ac))
    {
      hide P.PopInto;
      PopApart(m, P.Pc, ac);
      var m1 := P.PopInto(m, P.Pc);
      PopApart(m1, P.Cc, ac);
      var m2 := P.PopInto(m1, P.Cc);
      PopApart(m2, P.Mode, ac);
      var m3 := P.PopInto(m2, P.Mode);
      PopApart(m3, P.Rb, ac);
      var m4 := P.PopInto(m3, P.Rb);
      PopApart(m4, P.Rl, ac);
      PopApart(P.PopInto(m4, P.Rl), P.Rx, ac);
    }

    lemma PopApart(m: P.Hw, r: P.Register, ac: int)
      requires r != P.Ac
      ensures P.PopInto(m.(cpu := m.cpu.(ac := ac)), r) == var n := P.PopInto(m, r); n.(cpu := n.cpu.(ac := ac))
    {
    }

    /** A register assignment. */
    method AssignCpu(c: Cpu)
      requires Valid()
      modifies `cpu
      ensures Hw() == old(Hw()).(cpu := c)
    {
      cpu := c;
    }

    method ClearInterrupt(code: Irq)
      requires Valid()
      modifies `pending
      ensures Hw() == old(Hw()).(pending := old(pending) - {code})
    {
      pending := pending - {code};
    }

    method RaiseInterrupt(code: Irq)
      modifies `pending
      ensures pending == old(pending) + {code}
    {
      pending := pending + {code};
    }

    // -------------------------------------------------------------- syscalls.c

    method BlockOnMonitor(junk: int)
      requires Valid() && 0 <= current < MAX_PROCESSES
      modifies `cpu, ram, table
      ensures Hw() == P.RewindSavedPc(old(Hw()), junk)
      ensures table[..] == old(table[..])[current := P.Commit(old(table[current]), P.AwaitsMonitor)]
    {
      table[current] := table[current].(state := BlockedIo);
      var _, savedPc := ReadMemory(cpu.sp + 1, junk);
      var w := Encode(WordToInt(savedPc) - 1);
      var _ := WriteMemory(cpu.sp + 1, w);
    }

    method HandleSyscall(env: P.Env) returns (verdict: P.Verdict, ghost effect: P.Effect)
      requires Valid() && 0 <= current < MAX_PROCESSES && env.monitor == monitor
      modifies `cpu, `output, ram, table
      ensures P.SyscallResult(Hw(), verdict, effect) == P.HandleSyscall(old(Hw()), env)
      ensures table[..] == old(table[..])[current := P.Commit(old(table[current]), effect)]
      ensures output == old(output) + P.Emitted(old(table[current]).pid, effect)
    {
      effect := P.NoEffect;
      var code := WordToInt(cpu.ac);
      var userSp := cpu.sp + 7;
      var pid := table[current].pid;
      var status, param;
      if code == 1 {
        return P.Halt, effect;
      } else if code == 2 {
        status, param := ReadMemory(userSp, env.junk);
        if status != P.MemOk {
          return P.Halt, effect;
        }
        if monitor {
          effect := P.Prints(WordToInt(param));
          output := output + [P.Event(pid, P.Prints(WordToInt(param)))];
          return P.Success, effect;
        }
        BlockOnMonitor(env.junk);
        return P.Block, P.AwaitsMonitor;
      } else if code == 3 {
        if monitor {
          var w := Encode(env.input);
          var _ := WriteMemory(cpu.sp, w);
          return P.Success, effect;
        }
        BlockOnMonitor(env.junk);
        return P.Block, P.AwaitsMonitor;
      } else if code == 4 {
        status, param := ReadMemory(userSp, env.junk);
        if status != P.MemOk {
          return P.Halt, effect;
        }
        var tics := WordToInt(param);
        if tics < 0 {
          output := output + [P.Event(pid, P.RejectsSleep(tics))];
          return P.Halt, P.RejectsSleep(tics);
        }
        if tics == 0 {
          return P.Success, effect;
        }
        table[current] := table[current].(sleepTics := tics, state := Blocked);
        return P.Block, P.Sleeps(tics);
      }
      return P.Unknown, effect;
    }

    // -------------------------------------------------------------- interrupt service

    method HandleInterrupt(code: Irq, env: P.Env) returns (alive: bool, ghost effect: P.Effect)
      requires Valid() && 0 <= current < MAX_PROCESSES && env.monitor == monitor
      modifies `cpu, `output, `osYield, ram, table
      ensures P.StepResult(Hw(), alive, effect) == P.HandleInterrupt(old(Hw()), code, env)
      ensures table[..] == old(table[..])[current := P.Commit(old(table[current]), effect)]
      ensures output == old(output) + P.Emitted(old(table[current]).pid, effect)
    {
      effect, alive := P.NoEffect, true;
      match code {
        case InvalidInstr => alive := false;
        case InvalidAddr => alive := false;
        case Overflow =>
          var w := Encode(TruncMod(related, MAX_MAGNITUDE + 1));
          cpu := cpu.(ac := w);
        case Underflow =>
          var w := Encode(0);
          cpu := cpu.(ac := w);
        case Timer => osYield := true;
        case IoDone =>
        case Syscall =>
          var verdict;
          verdict, effect := HandleSyscall(env);
          if verdict == P.Halt {
            alive := false;
          } else if verdict == P.Block {
            osYield := true;
          }
        case InvalidSyscall =>
        case InvalidIntCode =>
      }
    }

    method CheckInterrupts(env: P.Env) returns (alive: bool, ghost effect: P.Effect)
      requires Valid() && 0 <= current < MAX_PROCESSES && env.monitor == monitor
      modifies `cpu, `output, `osYield, `pending, ram, table
      ensures P.StepResult(Hw(), alive, effect) == P.CheckInterrupts(old(Hw()), env)
      ensures table[..] == old(table[..])[current := P.Commit(old(table[current]), effect)]
      ensures output == old(output) + P.Emitted(old(table[current]).pid, effect)
    {
      hide P.SaveContext, P.RestoreContext, P.HandleInterrupt;
      if pending == {} || !cpu.interrupts {
        return true, P.NoEffect;
      }
      var code :=
        if InvalidInstr in pending then InvalidInstr
        else if InvalidAddr in pending then InvalidAddr
        else if Overflow in pending then Overflow
        else if Underflow in pending then Underflow
        else if Syscall in pending then Syscall
        else if Timer in pending then Timer
        else if IoDone in pending then IoDone
        else if InvalidSyscall in pending then InvalidSyscall
        else InvalidIntCode;
      AssignCpu(cpu.(interrupts := false));
      SaveContext();
      alive, effect := HandleInterrupt(code, env);
      ClearInterrupt(code);
      if alive {
        RestoreContext(code);
      }
      AssignCpu(cpu.(interrupts := true));
    }

    // -------------------------------------------------------------- instructions

    method CalculateEffectiveAddress(inst: Instruction) returns (a: int)
      ensures a == P.EffectiveAddress(cpu, inst)
    {
      if inst.direction == INDEXED {
        return inst.value + WordToInt(cpu.ac);
      }
      return inst.value;
    }

    method FetchOperand(inst: Instruction, junk: int) returns (ok: bool, word: int)
      requires Valid()
      modifies `cpu, `pending
      ensures P.Operand(Hw(), ok, word) == P.FetchOperand(old(Hw()), inst, junk)
    {
      if inst.direction == IMMEDIATE {
        word := Encode(inst.value);
        return true, word;
      } else if inst.direction == DIRECT || inst.direction == INDEXED {
        var a := CalculateEffectiveAddress(inst);
        var status;
        status, word := ReadMemory(a, junk);
        if status != P.MemOk {
          RaiseInterrupt(InvalidAddr);
          return false, word;
        }
        return true, word;
      }
      RaiseInterrupt(InvalidInstr);
      return false, junk;
    }

    method ExecuteArithmetic(inst: Instruction, junk: int) returns (ok: bool)
      requires Valid()
      modifies `cpu, `pending, `related
      ensures P.Outcome(Hw(), ok) == P.ExecuteArithmetic(old(Hw()), inst, junk)
    {
      var word, w;
      ok, word := FetchOperand(inst, junk);
      if !ok {
        return false;
      }
      var a, b := WordToInt(cpu.ac), WordToInt(word);
      var result := 0;
      if inst.opCode == OP_SUM {
        result := a + b;
        w := Encode(result);
        cpu := cpu.(ac := w);
      } else if inst.opCode == OP_RES {
        result := a - b;
        w := Encode(result);
        cpu := cpu.(ac := w);
      } else if inst.opCode == OP_MULT {
        result := a * b;
        w := Encode(TruncMod(result, MAX_MAGNITUDE + 1));
        cpu := cpu.(ac := w);
        if result > MAX_MAGNITUDE || result < -MAX_MAGNITUDE {
          cpu := cpu.(cc := CC_OVERFLOW);
        }
      } else if inst.opCode == OP_DIVI {
        if b == 0 {
          RaiseInterrupt(InvalidInstr);
          cpu := cpu.(cc := CC_OVERFLOW);
          return false;
        }
        result := TruncDiv(a, b);
        w := Encode(result);
        cpu := cpu.(ac := w);
      } else {
        RaiseInterrupt(InvalidInstr);
        return false;
      }
      if cpu.cc == CC_OVERFLOW {
        RaiseInterrupt(Overflow);
        related := result;
      }
      return true;
    }

    method ExecuteInterruptsChange(inst: Instruction) returns (ok: bool)
      requires Valid()
      modifies `cpu, `pending
      ensures P.Outcome(Hw(), ok) == P.ExecuteInterruptsChange(old(Hw()), inst)
    {
      if inst.opCode == OP_HAB {
        cpu := cpu.(interrupts := true);
      } else if inst.opCode == OP_DHAB {
        cpu := cpu.(interrupts := false);
      } else {
        RaiseInterrupt(InvalidInstr);
        return false;
      }
      return true;
    }

    method ExecuteDataMovement(inst: Instruction, junk: int) returns (ok: bool)
      requires Valid()
      modifies `cpu, `pending, ram
      ensures P.Outcome(Hw(), ok) == P.ExecuteDataMovement(old(Hw()), inst, junk)
    {
      var op := inst.opCode;
      var status := P.MemOk;
      ok := true;
      if op == OP_STR {
        if inst.direction == IMMEDIATE {
          RaiseInterrupt(InvalidInstr);
          return false;
        }
        var a := CalculateEffectiveAddress(inst);
        status := WriteMemory(a, cpu.ac);
      } else if op == OP_LOAD {
        var data;
        ok, data := FetchOperand(inst, junk);
        cpu := cpu.(ac := data);
        UpdatePswFlags();
      } else if op == OP_STRRX {
        cpu := cpu.(rx := cpu.ac);
      } else if op == OP_STRRB {
        cpu := cpu.(rb := cpu.ac);
      } else if op == OP_STRRL {
        cpu := cpu.(rl := cpu.ac);
      } else if op == OP_STRSP {
        status := WriteMemory(cpu.sp, cpu.ac);
      } else if op == OP_LOADRX {
        cpu := cpu.(ac := cpu.rx);
        UpdatePswFlags();
      } else if op == OP_LOADRB {
        cpu := cpu.(ac := cpu.rb);
        UpdatePswFlags();
      } else if op == OP_LOADRL {
        cpu := cpu.(ac := cpu.rl);
        UpdatePswFlags();
      } else if op == OP_LOADSP {
        var _, data := ReadMemory(cpu.sp, cpu.ac);
        cpu := cpu.(ac := data);
        UpdatePswFlags();
      } else {
        RaiseInterrupt(InvalidInstr);
      }
      if status != P.MemOk || !ok {
        RaiseInterrupt(InvalidAddr);
        return false;
      }
    }

    method ExecuteBranching(inst: Instruction) returns (ok: bool)
      requires Valid()
      modifies `cpu, `pending
      ensures P.Outcome(Hw(), ok) == P.ExecuteBranching(old(Hw()), inst)
    {
      if inst.opCode == OP_J {
        var a := CalculateEffectiveAddress(inst);
        cpu := cpu.(pc := a);
        return true;
      }
      var status, top := ReadMemory(cpu.sp, 0);
      if status != P.MemOk {
        RaiseInterrupt(InvalidAddr);
        return false;
      }
      var ac, st := WordToInt(cpu.ac), WordToInt(top);
      var shouldJump := false;
      if inst.opCode == OP_JMPE {
        shouldJump := ac == st;
      } else if inst.opCode == OP_JMPNE {
        shouldJump := ac != st;
      } else if inst.opCode == OP_JMPLT {
        shouldJump := ac < st;
      } else if inst.opCode == OP_JMPLGT {
        shouldJump := ac > st;
      } else {
        RaiseInterrupt(InvalidInstr);
        return true;
      }
      if shouldJump {
        var a := CalculateEffectiveAddress(inst);
        cpu := cpu.(pc := a);
      }
      return true;
    }

    method ExecuteComparison(inst: Instruction, junk: int) returns (ok: bool)
      requires Valid()
      modifies `cpu, `pending
      ensures P.Outcome(Hw(), ok) == P.ExecuteComparison(old(Hw()), inst, junk)
    {
      var word;
      ok, word := FetchOperand(inst, junk);
      if !ok {
        return false;
      }
      var result := WordToInt(cpu.ac) - WordToInt(word);
      var magnitude := if result >= 0 then result else -result;
      if magnitude > MAX_MAGNITUDE {
        cpu := cpu.(cc := CC_OVERFLOW);
      } else if result == 0 {
        cpu := cpu.(cc := CC_ZERO);
      } else if result < 0 {
        cpu := cpu.(cc := CC_NEG);
      } else {
        cpu := cpu.(cc := CC_POS);
      }
      return true;
    }

    method ExecuteStackManipulation(inst: Instruction) returns (ok: bool)
      requires Valid()
      modifies `cpu, `pending, ram
      ensures P.Outcome(Hw(), ok) == P.ExecuteStackManipulation(old(Hw()), inst)
    {
      var status := P.MemOk;
      if inst.opCode == OP_PSH {
        if cpu.sp - 1 < cpu.rx {
          RaiseInterrupt(InvalidAddr);
          return false;
        }
        cpu := cpu.(sp := cpu.sp - 1);
        status := WriteMemory(cpu.sp, cpu.ac);
      } else if inst.opCode == OP_POP {
        if cpu.sp + cpu.rb >= cpu.rl {
          RaiseInterrupt(InvalidAddr);
          return false;
        }
        var _, data := ReadMemory(cpu.sp, cpu.ac);
        cpu := cpu.(ac := data);
        cpu := cpu.(sp := cpu.sp + 1);
        UpdatePswFlags();
      } else {
        RaiseInterrupt(InvalidInstr);
        return false;
      }
      if status != P.MemOk {
        RaiseInterrupt(InvalidAddr);
        return false;
      }
      return true;
    }

    method ExecuteReturn() returns (ok: bool)
      requires Valid()
      modifies `cpu, `pending
      ensures P.Outcome(Hw(), ok) == P.ExecuteReturn(old(Hw()))
    {
      var status, returnAddress := ReadMemory(cpu.sp, 0);
      if status != P.MemOk {
        RaiseInterrupt(InvalidAddr);
        return false;
      }
      cpu := cpu.(pc := WordToInt(returnAddress));
      cpu := cpu.(sp := cpu.sp + 1);
      return true;
    }

    /** One pass of the DMA worker's loop over a pending request. */
    method DmaTransfer()
      requires Valid() && P.OnDisk(dma.track, dma.cylinder, dma.sector)
      modifies `dma, `pending, ram, disk.cells
      ensures Hw() == P.Transfer(old(Hw())) && dma == old(dma).(status := dma.status)
    {
      Geometry(dma.track, dma.cylinder, dma.sector, P.Linear(dma.track, dma.cylinder, dma.sector));
      dma := dma.(status := 0);
      var success := 0 <= dma.memAddr < RAM_SIZE;
      if dma.ioDirection == 1 {
        if success {
          var _ := disk.WriteSector(dma.track, dma.cylinder, dma.sector, ram[dma.memAddr]);
        }
      } else {
        var data, _ := disk.ReadSector(dma.track, dma.cylinder, dma.sector);
        if success {
          ram[dma.memAddr] := data;
        }
      }
      if !success {
        dma := dma.(status := 1);
        RaiseInterrupt(InvalidAddr);
      } else {
        RaiseInterrupt(IoDone);
      }
    }

    method ExecuteDma(inst: Instruction, junk: int) returns (ok: bool)
      requires Valid() && P.OnDisk(dma.track, dma.cylinder, dma.sector)
      modifies `cpu, `dma, `pending, ram, disk.cells
      ensures P.Outcome(Hw(), ok) == P.ExecuteDma(old(Hw()), inst, junk)
      ensures P.OnDisk(dma.track, dma.cylinder, dma.sector)
    {
      hide P.Transfer, WordToInt;
      var fetched, data := FetchOperand(inst, junk);
      var v := WordToInt(data);
      if inst.opCode == OP_SDMAP {
        if v < 0 || v >= DISK_TRACKS {
          RaiseInterrupt(InvalidInstr);
          return false;
        }
        dma := dma.(track := v);
      } else if inst.opCode == OP_SDMAC {
        if v < 0 || v >= DISK_CYLINDERS {
          RaiseInterrupt(InvalidInstr);
          return false;
        }
        dma := dma.(cylinder := v);
      } else if inst.opCode == OP_SDMAS {
        if v < 0 || v >= DISK_SECTORS {
          RaiseInterrupt(InvalidInstr);
          return false;
        }
        dma := dma.(sector := v);
      } else if inst.opCode == OP_SDMAIO {
        if v != 0 && v != 1 {
          RaiseInterrupt(InvalidInstr);
          return false;
        }
        dma := dma.(ioDirection := v);
      } else if inst.opCode == OP_SDMAM {
        var phys := v;
        if cpu.mode != MODE_KERNEL {
          phys := cpu.rb + v;
          if phys > cpu.rl {
            RaiseInterrupt(InvalidAddr);
            return false;
          }
        }
        if phys < 0 || phys >= RAM_SIZE {
          RaiseInterrupt(InvalidInstr);
          return false;
        }
        dma := dma.(memAddr := phys);
      } else if inst.opCode == OP_SDMAON {
        DmaTransfer();
      } else {
        RaiseInterrupt(InvalidInstr);
        return false;
      }
      if !fetched {
        RaiseInterrupt(InvalidAddr);
        return false;
      }
      return true;
    }

    method Execute(inst: Instruction, junk: int) returns (ok: bool)
      requires Valid() && P.OnDisk(dma.track, dma.cylinder, dma.sector)
      modifies `cpu, `dma, `pending, `related, ram, disk.cells
      ensures P.Outcome(Hw(), ok) == P.Execute(old(Hw()), inst, junk)
      ensures P.OnDisk(dma.track, dma.cylinder, dma.sector)
    {
      var op := inst.opCode;
      if op == OP_SUM || op == OP_RES || op == OP_MULT || op == OP_DIVI {
        ok := ExecuteArithmetic(inst, junk);
      } else if op == OP_LOAD || op == OP_STR || op == OP_LOADRX || op == OP_STRRX {
        ok := ExecuteDataMovement(inst, junk);
      } else if op == OP_COMP {
        ok := ExecuteComparison(inst, junk);
      } else if op == OP_JMPE || op == OP_JMPNE || op == OP_JMPLT || op == OP_JMPLGT {
        ok := ExecuteBranching(inst);
      } else if op == OP_SVC {
        RaiseInterrupt(Syscall);
        ok := true;
      } else if op == OP_RETRN {
        ok := ExecuteReturn();
      } else if op == OP_HAB || op == OP_DHAB {
        ok := ExecuteInterruptsChange(inst);
      } else if op == OP_TTI {
        ok := ExecuteSetTimer(inst, junk);
      } else if op == OP_CHMOD {
        ok := ExecuteChangeMode(inst);
      } else if op == OP_LOADRB || op == OP_STRRB || op == OP_LOADRL || op == OP_STRRL || op == OP_LOADSP || op == OP_STRSP {
        ok := ExecuteDataMovement(inst, junk);
      } else if op == OP_PSH || op == OP_POP {
        ok := ExecuteStackManipulation(inst);
      } else if op == OP_J {
        ok := ExecuteBranching(inst);
      } else if op == OP_SDMAP || op == OP_SDMAC || op == OP_SDMAS || op == OP_SDMAIO || op == OP_SDMAM || op == OP_SDMAON {
        ok := ExecuteDma(inst, junk);
      } else {
        RaiseInterrupt(InvalidInstr);
        ok := false;
      }
    }

    method ExecuteSetTimer(inst: Instruction, junk: int) returns (ok: bool)
      requires Valid()
      modifies `cpu, `pending
      ensures P.Outcome(Hw(), ok) == P.ExecuteTimer(old(Hw()), inst, junk)
    {
      var word;
      ok, word := FetchOperand(inst, junk);
      if ok {
        var v := WordToInt(word);
        cpu := cpu.(timerLimit := if v >= 0 then v else v + TWO_TO_THE_64);
      }
    }

    method ExecuteChangeMode(inst: Instruction) returns (ok: bool)
      requires Valid()
      modifies `cpu, `pending
      ensures P.Outcome(Hw(), ok) == P.ExecuteChangeMode(old(Hw()), inst)
    {
      if inst.value == 0 {
        cpu := cpu.(mode := MODE_USER);
      } else if inst.value == 1 {
        cpu := cpu.(mode := MODE_KERNEL);
      } else {
        RaiseInterrupt(InvalidInstr);
        return false;
      }
      return true;
    }

    // -------------------------------------------------------------- the cycle

    method Fetch() returns (ok: bool)
      requires Valid()
      modifies `cpu
      ensures ok == P.Addressable(old(cpu), old(cpu.pc))
      ensures Hw() == if ok then P.Fetched(old(Hw())) else old(Hw()).(cpu := old(cpu).(mar := old(cpu.pc)))
    {
      cpu := cpu.(mar := cpu.pc);
      var status, w := ReadMemory(cpu.mar, cpu.mdr);
      if status != P.MemOk {
        return false;
      }
      cpu := cpu.(mdr := w);
      cpu := cpu.(ir := cpu.mdr);
      cpu := cpu.(pc := cpu.pc + 1);
      return true;
    }

    method CountCycle()
      requires Valid()
      modifies `cpu, `pending
      ensures Hw() == P.CountCycle(old(Hw()))
    {
      cpu := cpu.(cycles := if cpu.cycles + 1 == TWO_TO_THE_64 then 0 else cpu.cycles + 1);
      if cpu.cycles >= cpu.timerLimit && cpu.timerLimit > 0 {
        cpu := cpu.(cycles := 0);
        RaiseInterrupt(Timer);
      }
    }

    method CpuStep(env: P.Env) returns (alive: bool, ghost effect: P.Effect)
      requires Valid() && 0 <= current < MAX_PROCESSES && env.monitor == monitor
      requires P.OnDisk(dma.track, dma.cylinder, dma.sector)
      modifies `cpu, `dma, `output, `osYield, `pending, `related, ram, table, disk.cells
      ensures P.StepResult(Hw(), alive, effect) == P.CpuStep(old(Hw()), env)
      ensures table[..] == old(table[..])[current := P.Commit(old(table[current]), effect)]
      ensures output == old(output) + P.Emitted(old(table[current]).pid, effect)
      ensures P.OnDisk(dma.track, dma.cylinder, dma.sector)
    {
      var fetched := Fetch();
      if !fetched {
        return false, P.NoEffect;
      }
      var _ := Execute(Decode(cpu.ir), env.junk);
      CountCycle();
      alive, effect := CheckInterrupts(env);
    }
  }
}
