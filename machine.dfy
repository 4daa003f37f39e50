/**
 * The LS-8 machine as values: its state, the six handlers of the branch
 * table, one fetch-and-dispatch step and the run loop. The class in
 * module Cpu is proved to follow these definitions.
 */
module Machine {
  import opened Results

  const RamSize := 256
  const RegCount := 8
  /** R7 is the stack pointer. */
  const SP := 7
  const StackStart := 0xF4

  /** The handlers the branch table can dispatch to. */
  datatype Instr = Hlt | Ldi | Prn | Mul | Push | Pop

  /** The branch table: opcode byte to handler. No other opcode exists. */
  const BranchTable: map<int, Instr> :=
    map[0x82 := Ldi, 0x45 := Push, 0x46 := Pop, 0x47 := Prn, 0x01 := Hlt, 0xA2 := Mul]

  /** The opcode byte under which the branch table holds a handler. */
  function Opcode(i: Instr): (op: int)
    ensures 0 <= op < RamSize
    ensures op in BranchTable && BranchTable[op] == i
  {
    match i
    case Hlt => 0x01
    case Ldi => 0x82
    case Prn => 0x47
    case Mul => 0xA2
    case Push => 0x45
    case Pop => 0x46
  }

  /**
   * Everything a run changes: memory, registers, the program counter, the
   * running flag and the values PRN has printed so far, oldest first.
   * Cells and registers hold unbounded integers, as Python's do.
   */
  datatype State = State(ram: seq<int>, reg: seq<int>, pc: nat, running: bool, out: seq<int>)
  {
    predicate Valid() {
      |ram| == RamSize && |reg| == RegCount
    }
  }

  /** What stops a run other than HLT: an opcode missing from the table, an access outside RAM or the registers, or an ALU operation the ALU lacks. */
  datatype Fault = IllegalInstruction(opcode: int) | OutOfRange | UnsupportedOperation(op: string)

  /** A fresh CPU: RAM and R0-R6 zero, the stack pointer at 0xF4, pc 0, running. */
  function Init(): (s: State)
    ensures s.Valid() && s.pc == 0 && s.running && s.out == []
    ensures forall a :: 0 <= a < RamSize ==> s.ram[a] == 0
    ensures forall i :: 0 <= i < RegCount && i != SP ==> s.reg[i] == 0
    ensures s.reg[SP] == StackStart
  {
    State(seq(RamSize, _ => 0), [0, 0, 0, 0, 0, 0, 0, StackStart], 0, true, [])
  }

  /** A fresh CPU whose RAM holds a loaded program from address 0. */
  function Boot(program: seq<int>): (s: State)
    requires |program| <= RamSize
    ensures s.Valid() && s.pc == 0 && s.running && s.out == []
    ensures s.ram[..|program|] == program
    ensures forall a :: |program| <= a < RamSize ==> s.ram[a] == 0
    ensures s.reg == Init().reg
  {
    var s0 := Init();
    s0.(ram := program + s0.ram[|program|..])
  }

  /** How far a handler moves pc: its opcode byte and its operand bytes. */
  function Width(i: Instr): (w: nat)
    ensures 1 <= w <= 3
  {
    match i
    case Hlt => 1
    case Ldi => 3
    case Prn => 2
    case Mul => 3
    case Push => 2
    case Pop => 2
  }

  /** The cell k bytes after the opcode exists and names a register. */
  predicate RegOperand(s: State, k: nat)
    requires s.Valid()
  {
    s.pc + k < RamSize && 0 <= s.ram[s.pc + k] < RegCount
  }

  /** What a handler needs so that no index it uses leaves RAM or the register file. */
  predicate Ready(i: Instr, s: State)
    requires s.Valid()
    ensures Ready(i, s) && i != Hlt ==> s.pc + Width(i) <= RamSize
    ensures Ready(i, s) && i != Hlt ==> 0 <= s.ram[s.pc + 1] < RegCount
  {
    match i
    case Hlt => true
    case Ldi => RegOperand(s, 1) && s.pc + 2 < RamSize
    case Prn => RegOperand(s, 1)
    case Mul => RegOperand(s, 1) && RegOperand(s, 2)
    case Push => RegOperand(s, 1) && 0 < s.reg[SP] <= RamSize
    case Pop => RegOperand(s, 1) && 0 <= s.reg[SP] < RamSize
  }

  /** HLT: stop, and step past the opcode. */
  function ExecHlt(s: State): (t: State)
    requires s.Valid()
    ensures t.Valid() && !t.running && t.pc == s.pc + 1
    ensures t.ram == s.ram && t.reg == s.reg && t.out == s.out
  {
    s.(running := false, pc := s.pc + 1)
  }

  /** LDI r, v: register r takes the immediate byte v. */
  function ExecLdi(s: State): (t: State)
    requires s.Valid() && Ready(Ldi, s)
    ensures t.Valid()
    ensures t.reg[s.ram[s.pc + 1]] == s.ram[s.pc + 2]
    ensures forall i :: 0 <= i < RegCount && i != s.ram[s.pc + 1] ==> t.reg[i] == s.reg[i]
    ensures t.ram == s.ram && t.pc == s.pc + 3 && t.running == s.running && t.out == s.out
  {
    var r := s.ram[s.pc + 1];
    s.(reg := s.reg[r := s.ram[s.pc + 2]], pc := s.pc + 3)
  }

  /** PRN r: print register r; nothing but pc and the output moves. */
  function ExecPrn(s: State): (t: State)
    requires s.Valid() && Ready(Prn, s)
    ensures t.Valid() && t.out == s.out + [s.reg[s.ram[s.pc + 1]]]
    ensures t.ram == s.ram && t.reg == s.reg && t.pc == s.pc + 2 && t.running == s.running
  {
    s.(out := s.out + [s.reg[s.ram[s.pc + 1]]], pc := s.pc + 2)
  }

  /** MUL a, b: register a takes the product of a and b, with no reduction to eight bits. */
  function ExecMul(s: State): (t: State)
    requires s.Valid() && Ready(Mul, s)
    ensures t.Valid()
    ensures var a, b := s.ram[s.pc + 1], s.ram[s.pc + 2]; t.reg[a] == s.reg[a] * s.reg[b]
    ensures forall i :: 0 <= i < RegCount && i != s.ram[s.pc + 1] ==> t.reg[i] == s.reg[i]
    ensures t.ram == s.ram && t.pc == s.pc + 3 && t.running == s.running && t.out == s.out
  {
    var a, b := s.ram[s.pc + 1], s.ram[s.pc + 2];
    s.(reg := s.reg[a := s.reg[a] * s.reg[b]], pc := s.pc + 3)
  }

  /**
   * PUSH r: the stack pointer is decremented first and register r is read
   * afterwards, so PUSH R7 stores the decremented stack pointer.
   */
  function ExecPush(s: State): (t: State)
    requires s.Valid() && Ready(Push, s)
    ensures t.Valid()
    ensures t.reg[SP] == s.reg[SP] - 1
    ensures forall i :: 0 <= i < RegCount && i != SP ==> t.reg[i] == s.reg[i]
    ensures var r := s.ram[s.pc + 1];
      t.ram[t.reg[SP]] == if r == SP then s.reg[SP] - 1 else s.reg[r]
    ensures forall a :: 0 <= a < RamSize && a != t.reg[SP] ==> t.ram[a] == s.ram[a]
    ensures t.pc == s.pc + 2 && t.running == s.running && t.out == s.out
  {
    var reg := s.reg[SP := s.reg[SP] - 1];
    var value := reg[s.ram[s.pc + 1]];
    s.(reg := reg, ram := s.ram[reg[SP] := value], pc := s.pc + 2)
  }

  /**
   * POP r: register r takes the top of the stack, then the stack pointer
   * is incremented; for POP R7 the increment applies to the popped value.
   */
  function ExecPop(s: State): (t: State)
    requires s.Valid() && Ready(Pop, s)
    ensures t.Valid()
    ensures var r, top := s.ram[s.pc + 1], s.ram[s.reg[SP]];
      if r == SP then t.reg[SP] == top + 1 else t.reg[r] == top && t.reg[SP] == s.reg[SP] + 1
    ensures forall i :: 0 <= i < RegCount && i != SP && i != s.ram[s.pc + 1] ==> t.reg[i] == s.reg[i]
    ensures t.ram == s.ram && t.pc == s.pc + 2 && t.running == s.running && t.out == s.out
  {
    var reg := s.reg[s.ram[s.pc + 1] := s.ram[s.reg[SP]]];
    s.(reg := reg[SP := reg[SP] + 1], pc := s.pc + 2)
  }

  /** The handler the branch table names for i. */
  function Execute(i: Instr, s: State): (t: State)
    requires s.Valid() && Ready(i, s)
    ensures t.Valid() && t.pc == s.pc + Width(i)
    ensures t.running <==> s.running && i != Hlt
    ensures i != Prn ==> t.out == s.out
    ensures i != Push ==> t.ram == s.ram
  {
    match i
    case Hlt => ExecHlt(s)
    case Ldi => ExecLdi(s)
    case Prn => ExecPrn(s)
    case Mul => ExecMul(s)
    case Push => ExecPush(s)
    case Pop => ExecPop(s)
  }

  /**
   * One iteration of the run loop: fetch the opcode at pc and call its
   * handler. Handlers always move pc forward, and only HLT clears the
   * running flag.
   */
  function Step(s: State): (r: Result<State, Fault>)
    requires s.Valid()
    ensures s.pc >= RamSize ==> r == Err(OutOfRange)
    ensures r.Ok? ==> s.pc < RamSize && s.ram[s.pc] in BranchTable
    ensures r.Ok? ==> r.value.Valid() && r.value.pc > s.pc
    ensures r.Ok? ==> (r.value.running <==> s.running && s.ram[s.pc] != Opcode(Hlt))
    ensures r.Err? && s.pc < RamSize && s.ram[s.pc] !in BranchTable ==>
      r.error == IllegalInstruction(s.ram[s.pc])
  {
    if s.pc >= RamSize then Err(OutOfRange)
    else
      var op := s.ram[s.pc];
      if op !in BranchTable then Err(IllegalInstruction(op))
      else if !Ready(BranchTable[op], s) then Err(OutOfRange)
      else Ok(Execute(BranchTable[op], s))
  }

  /** How a run ended. */
  datatype Stop = Halted | Faulted(fault: Fault)

  datatype Outcome = Outcome(final: State, stop: Stop)

  /**
   * `while self.running: dispatch(ram[pc])`. The loop ends: every step
   * moves pc forward and a fetch beyond the last cell is a fault. A fault
   * leaves the state as it was before the failing instruction.
   */
  function Run(s: State): (o: Outcome)
    requires s.Valid()
    ensures o.final.Valid()
    decreases RamSize - s.pc
  {
    if !s.running then Outcome(s, Halted)
    else match Step(s)
      case Err(f) => Outcome(s, Faulted(f))
      case Ok(t) => Run(t)
  }

  /**
   * `alu(op, a, b)`: only ADD exists; any other operation is an error
   * whatever the indices, and ADD on an index outside the register file
   * is an out-of-range fault.
   */
  function Alu(s: State, op: string, a: int, b: int): (r: Result<State, Fault>)
    requires s.Valid()
    ensures op != "ADD" <==> r == Err(UnsupportedOperation(op))
    ensures op == "ADD" ==> (r == Err(OutOfRange) <==> !(0 <= a < RegCount && 0 <= b < RegCount))
    ensures r.Ok? ==> r.value.Valid() && r.value.reg[a] == s.reg[a] + s.reg[b]
    ensures r.Ok? ==> forall i :: 0 <= i < RegCount && i != a ==> r.value.reg[i] == s.reg[i]
    ensures r.Ok? ==>
      r.value.ram == s.ram && r.value.pc == s.pc && r.value.running == s.running && r.value.out == s.out
  {
    if op != "ADD" then Err(UnsupportedOperation(op))
    else if !(0 <= a < RegCount && 0 <= b < RegCount) then Err(OutOfRange)
    else Ok(s.(reg := s.reg[a := s.reg[a] + s.reg[b]]))
  }

  /** The branch table holds exactly the six opcodes, one per handler. */
  lemma BranchTableKeys(op: int)
    ensures op in BranchTable <==> exists i :: Opcode(i) == op
  {
    if op in BranchTable {
      assert Opcode(BranchTable[op]) == op;
    }
  }

  /**
   * Dispatch: when pc holds the opcode of handler i, the step succeeds
   * exactly when i's operands are in range, and then it is i's handler.
   */
  lemma Dispatch(i: Instr, s: State)
    requires s.Valid() && s.pc < RamSize && s.ram[s.pc] == Opcode(i)
    ensures Step(s).Ok? <==> Ready(i, s)
    ensures Ready(i, s) ==> Step(s) == Ok(Execute(i, s))
    ensures !Ready(i, s) ==> Step(s) == Err(OutOfRange)
  {
  }

  /** A run that starts on HLT stops after that one instruction. */
  lemma HltStopsRun(s: State)
    requires s.Valid() && s.running && s.pc < RamSize && s.ram[s.pc] == Opcode(Hlt)
    ensures Run(s) == Outcome(ExecHlt(s), Halted)
  {
  }

  /** An opcode missing from the branch table stops the run before anything executes. */
  lemma IllegalOpcodeStopsRun(s: State)
    requires s.Valid() && s.running && s.pc < RamSize && s.ram[s.pc] !in BranchTable
    ensures Run(s) == Outcome(s, Faulted(IllegalInstruction(s.ram[s.pc])))
  {
  }

  /**
   * A run that halts has executed a HLT last: the cell just before the
   * final pc holds the HLT opcode and the machine is no longer running.
   */
  lemma {:induction false} RunHaltsOnHlt(s: State)
    requires s.Valid() && s.running
    ensures var o := Run(s);
      o.stop == Halted ==>
        !o.final.running && 1 <= o.final.pc <= RamSize && o.final.ram[o.final.pc - 1] == Opcode(Hlt)
    decreases RamSize - s.pc
  {
    var r := Step(s);
    if r.Ok? {
      var t := r.value;
      if t.running {
        RunHaltsOnHlt(t);
      } else {
        assert s.ram[s.pc] == Opcode(Hlt);
        assert t == ExecHlt(s);
      }
    }
  }

  /** A run only adds to what has been printed, and never moves pc backwards. */
  lemma {:induction false} RunExtendsOutput(s: State)
    requires s.Valid()
    ensures s.out <= Run(s).final.out
    ensures s.pc <= Run(s).final.pc
    decreases RamSize - s.pc
  {
    if s.running && Step(s).Ok? {
      var t := Step(s).value;
      var i := BranchTable[s.ram[s.pc]];
      assert t == Execute(i, s);
      assert s.out <= t.out;
      RunExtendsOutput(t);
    }
  }

  /**
   * PUSH r followed by POP d, when the pushed cell does not overwrite the
   * POP instruction: the stack pointer is back where it was, d holds what
   * r held when it was pushed, pc has moved by four, and only the stack
   * cell below the old stack pointer has changed in RAM.
   */
  lemma PushPopRoundTrip(s: State)
    requires s.Valid() && s.pc + 3 < RamSize
    requires s.ram[s.pc] == Opcode(Push) && s.ram[s.pc + 2] == Opcode(Pop)
    requires 0 <= s.ram[s.pc + 1] < RegCount && 0 <= s.ram[s.pc + 3] < SP
    requires 0 < s.reg[SP] <= RamSize
    requires s.reg[SP] - 1 != s.pc + 2 && s.reg[SP] - 1 != s.pc + 3
    ensures Step(s).Ok? && Step(Step(s).value).Ok?
    ensures var t, r, d := Step(Step(s).value).value, s.ram[s.pc + 1], s.ram[s.pc + 3];
      && t.reg[SP] == s.reg[SP]
      && t.reg[d] == (if r == SP then s.reg[SP] - 1 else s.reg[r])
      && (forall i :: 0 <= i < RegCount && i != d ==> t.reg[i] == s.reg[i])
      && t.pc == s.pc + 4 && t.running == s.running && t.out == s.out
      && (forall a :: 0 <= a < RamSize && a != s.reg[SP] - 1 ==> t.ram[a] == s.ram[a])
  {
    var m := ExecPush(s);
    assert Step(s) == Ok(m);
    assert m.ram[m.pc] == Opcode(Pop) && m.ram[m.pc + 1] == s.ram[s.pc + 3];
    assert Step(m) == Ok(ExecPop(m));
  }

  /** LDI r, v followed by PRN r prints v. */
  lemma LdiThenPrn(s: State)
    requires s.Valid() && s.pc + 4 < RamSize
    requires s.ram[s.pc] == Opcode(Ldi) && s.ram[s.pc + 3] == Opcode(Prn)
    requires 0 <= s.ram[s.pc + 1] < RegCount && s.ram[s.pc + 4] == s.ram[s.pc + 1]
    ensures Step(s).Ok? && Step(Step(s).value).Ok?
    ensures Step(Step(s).value).value.out == s.out + [s.ram[s.pc + 2]]
  {
    var m := ExecLdi(s);
    assert Step(s) == Ok(m);
    assert Step(m) == Ok(ExecPrn(m));
  }

  /** The print8 example: LDI R0,8; PRN R0; HLT prints 8 and halts with pc just past HLT. */
  lemma Print8()
    ensures var o := Run(Boot([0x82, 0, 8, 0x47, 0, 0x01]));
      o.stop == Halted && o.final.out == [8] && o.final.pc == 6 && o.final.reg[0] == 8
  {
    // The trace: LDI R0,8 at 0, PRN R0 at 3, HLT at 5, then the loop stops.
  }

  /** MUL keeps the full product: 200 times 2 leaves 400 in the register, not 144. */
  lemma MulKeepsFullProduct(s: State)
    requires s.Valid() && s.pc + 2 < RamSize
    requires s.ram[s.pc] == Opcode(Mul) && s.ram[s.pc + 1] == 0 && s.ram[s.pc + 2] == 1
    requires s.reg[0] == 200 && s.reg[1] == 2
    ensures Step(s).Ok? && Step(s).value.reg[0] == 400
  {
    assert Step(s) == Ok(ExecMul(s));
  }
}
