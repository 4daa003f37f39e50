/**
 * The CPU object: RAM and the register file as arrays updated in place,
 * pc and the running flag as fields. Every method is proved to change the
 * state exactly as the matching definition of module Machine says.
 */
module Cpu {
  import opened Results
  import opened Machine
  import Binary
  import Loader

  class CPU {
    const ram: array<int>
    const reg: array<int>
    var pc: nat
    var running: bool
    /** What PRN has written to standard output, oldest first. */
    var output: seq<int>

    predicate Valid()
      reads this
    {
      ram.Length == RamSize && reg.Length == RegCount && ram != reg
    }

    /** The machine state this object represents. */
    function State(): (s: Machine.State)
      requires Valid()
      reads this, ram, reg
      ensures s.Valid()
    {
      Machine.State(ram[..], reg[..], pc, running, output)
    }

    constructor ()
      ensures Valid() && fresh(ram) && fresh(reg)
      ensures State() == Init()
    {
      ram := new int[RamSize](_ => 0);
      reg := new int[RegCount](i => if i == SP then StackStart else 0);
      pc := 0;
      running := true;
      output := [];
      new;
      assert reg[..] == Init().reg;
    }

    /** `ram_read(address)`: the cell, or an out-of-range fault for an address outside RAM. */
    method RamRead(address: int) returns (value: Result<int, Fault>)
      requires Valid()
      ensures 0 <= address < RamSize ==> value == Ok(State().ram[address])
      ensures !(0 <= address < RamSize) ==> value == Err(OutOfRange)
    {
      if 0 <= address < RamSize {
        value := Ok(ram[address]);
      } else {
        value := Err(OutOfRange);
      }
    }

    /** `ram_write(value, address)`: one cell replaced, or an out-of-range fault and no change. */
    method RamWrite(value: int, address: int) returns (fault: Option<Fault>)
      requires Valid()
      modifies ram
      ensures 0 <= address < RamSize ==>
        fault.None? && State() == old(State()).(ram := old(State()).ram[address := value])
      ensures !(0 <= address < RamSize) ==> fault == Some(OutOfRange) && State() == old(State())
    {
      if 0 <= address < RamSize {
        ram[address] := value;
        fault := None;
      } else {
        fault := Some(OutOfRange);
      }
    }

    method Hlt()
      requires Valid()
      modifies this
      ensures State() == ExecHlt(old(State()))
    {
      running := false;
      pc := pc + 1;
    }

    method Ldi()
      requires Valid() && Ready(Machine.Ldi, State())
      modifies reg, this
      ensures State() == ExecLdi(old(State()))
    {
      var regNum := ram[pc + 1];
      var value := ram[pc + 2];
      reg[regNum] := value;
      pc := pc + 3;
    }

    method Prn()
      requires Valid() && Ready(Machine.Prn, State())
      modifies this
      ensures State() == ExecPrn(old(State()))
    {
      var regNum := ram[pc + 1];
      output := output + [reg[regNum]];
      pc := pc + 2;
    }

    method Mul()
      requires Valid() && Ready(Machine.Mul, State())
      modifies reg, this
      ensures State() == ExecMul(old(State()))
    {
      var reg1Num := ram[pc + 1];
      var reg2Num := ram[pc + 2];
      reg[reg1Num] := reg[reg1Num] * reg[reg2Num];
      pc := pc + 3;
    }

    method Push()
      requires Valid() && Ready(Machine.Push, State())
      modifies ram, reg, this
      ensures State() == ExecPush(old(State()))
    {
      reg[SP] := reg[SP] - 1;
      var regNum := ram[pc + 1];
      var value := reg[regNum];
      var top := reg[SP];
      ram[top] := value;
      pc := pc + 2;
    }

    method Pop()
      requires Valid() && Ready(Machine.Pop, State())
      modifies reg, this
      ensures State() == ExecPop(old(State()))
    {
      var regNum := ram[pc + 1];
      var value := ram[reg[SP]];
      reg[regNum] := value;
      reg[SP] := reg[SP] + 1;
      pc := pc + 2;
    }

    /** `alu(op, a, b)`: an unsupported operation or a bad register index leaves the state alone. */
    method Alu(op: string, a: int, b: int) returns (fault: Option<Fault>)
      requires Valid()
      modifies reg
      ensures fault.None? ==> Machine.Alu(old(State()), op, a, b) == Ok(State())
      ensures fault.Some? ==> Machine.Alu(old(State()), op, a, b) == Err(fault.value) && State() == old(State())
    {
      if op != "ADD" {
        fault := Some(UnsupportedOperation(op));
      } else if !(0 <= a < RegCount && 0 <= b < RegCount) {
        fault := Some(OutOfRange);
      } else {
        reg[a] := reg[a] + reg[b];
        fault := None;
      }
    }

    /** One pass of the run loop: fetch `ram[pc]` and call the handler the branch table names. */
    method Step() returns (fault: Option<Fault>)
      requires Valid()
      modifies ram, reg, this
      ensures fault.None? ==> Machine.Step(old(State())) == Ok(State())
      ensures fault.Some? ==> Machine.Step(old(State())) == Err(fault.value) && State() == old(State())
    {
      if pc >= RamSize {
        return Some(OutOfRange);
      }
      var ir := ram[pc];
      if ir !in BranchTable {
        return Some(IllegalInstruction(ir));
      }
      var handler := BranchTable[ir];
      if !Ready(handler, State()) {
        return Some(OutOfRange);
      }
      fault := None;
      match handler {
        case Hlt => Hlt();
        case Ldi => Ldi();
        case Prn => Prn();
        case Mul => Mul();
        case Push => Push();
        case Pop => Pop();
      }
    }

    /** `run`: step while running; the result is Machine.Run of the starting state. */
    method Run() returns (stop: Stop)
      requires Valid()
      modifies ram, reg, this
      ensures Machine.Run(old(State())) == Outcome(State(), stop)
    {
      while running
        invariant Valid()
        invariant Machine.Run(State()) == Machine.Run(old(State()))
        decreases RamSize - pc
      {
        var fault := Step();
        if fault.Some? {
          return Faulted(fault.value);
        }
      }
      return Halted;
    }

    /**
     * `load` without the file handling: for each line, its first token is
     * skipped when it is a comment, parsed as binary otherwise, and stored
     * at the next address from 0. Returns the error that ends the load, if any.
     */
    method Load(lines: seq<string>) returns (error: Option<Loader.LoadError>)
      requires Valid()
      requires |Loader.Stored(lines)| <= RamSize
      modifies ram
      ensures error.None? <==> Loader.Program(lines).Ok?
      ensures error.Some? ==> Loader.Program(lines) == Err(error.value)
      ensures ram[..] == Loader.Stored(lines) + old(ram[..])[|Loader.Stored(lines)|..]
    {
      var address := 0;
      var i := 0;
      ghost var stored: seq<nat> := [];
      ghost var before := ram[..];
      while i < |lines|
        invariant 0 <= i <= |lines|
        invariant Loader.LoadedThrough(lines, i, stored)
        invariant address == |stored| <= RamSize
        invariant ram[..] == stored + before[address..]
      {
        error, address, stored := LoadLine(lines, i, address, stored, before);
        if error.Some? {
          return;
        }
        i := i + 1;
      }
      Loader.LoadEnd(lines, stored);
      if address == 0 {
        return Some(Loader.EmptyProgram);
      }
      return None;
    }

    /**
     * One pass of the loading loop over line i: a skipped line stores nothing, a numeral
     * is stored at `address`, and anything else ends the load with the whole file's error.
     */
    method LoadLine(lines: seq<string>, i: nat, address: nat, ghost stored: seq<nat>, ghost before: seq<int>)
      returns (error: Option<Loader.LoadError>, next: nat, ghost now: seq<nat>)
      requires Valid() && i < |lines| && Loader.LoadedThrough(lines, i, stored)
      requires address == |stored| <= RamSize && |Loader.Stored(lines)| <= RamSize
      requires |before| == RamSize && ram[..] == stored + before[address..]
      modifies ram
      ensures error.Some? ==> Loader.Program(lines) == Err(error.value) && Loader.Stored(lines) == stored
      ensures error.Some? ==> ram[..] == old(ram[..]) && now == stored
      ensures error.None? ==> Loader.LoadedThrough(lines, i + 1, now)
      ensures next == |now| <= RamSize && ram[..] == now + before[next..]
    {
      var token := Loader.FirstToken(lines[i]);
      if token.Some? && token.value[0] != '#' {
        var value := Binary.ParseBinary(token.value);
        if value.None? {
          Loader.LoadInvalid(lines, i, stored, token.value);
          return Some(Loader.InvalidNumber(token.value)), address, stored;
        }
        Loader.LoadValue(lines, i, stored, token.value, value.value);
        StoreNext(ram[..], stored, before, value.value);
        ram[address] := value.value;
        return None, address + 1, stored + [value.value];
      }
      Loader.LoadSkipped(lines, i, stored);
      return None, address, stored;
    }
  }

  /** Writing the next cell after a stored prefix extends the prefix by that value. */
  lemma StoreNext(cells: seq<int>, stored: seq<int>, before: seq<int>, v: int)
    requires |stored| < |cells| == |before| && cells == stored + before[|stored|..]
    ensures cells[|stored| := v] == stored + [v] + before[|stored| + 1..]
  {
  }

}
