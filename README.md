# LS-8 CPU core in Dafny

This project models the LS-8 emulator's `CPU` class and proves properties of the model. The LS-8 is an 8-register machine with 256 cells of RAM. R7 is its stack pointer and starts at `0xF4`. The CPU fetches the opcode at `pc` and dispatches through a branch table that holds six handlers: HLT, LDI, PRN, MUL, PUSH and POP. It also has a one-operation ALU, and a loader that turns the lines of a program file into RAM contents.

The project has five modules:

- `Results`: the `Option` and `Result` types.
- `Binary`: binary numerals as the loader reads them (`int(token, 2)`) and writes them back (`format(value, '#010b')`). The read-back lemmas show that the digits `load` writes into a cell read back as the number they were formatted from.
- `Loader`: the loader's line filter as functions of the file's lines:
  - `FirstToken`: the first whitespace-separated token of a line.
  - `Skipped`: blank and comment lines.
  - `Accepted`: the tokens that count.
  - `Scan`: storing values until the first invalid numeral.
  - `Program`: the program or the load error.

  Lemmas state what these mean.
- `Machine`: the machine state as a value:
  - one function per handler;
  - `Step`, the fetch and dispatch;
  - `Run`, the `while self.running` loop;
  - `Alu`.

  Lemmas cover dispatch, halting, the stack round trip and the `print8` example.
- `Cpu`: the `CPU` class itself. `ram` and `reg` are arrays updated in place, and `pc`, `running` and the printed output are fields. Each method is proved to change the state exactly as a pure definition says:
  - each handler method matches its `Machine` function, as in `State() == ExecPush(old(State()))`;
  - `Alu` and `Step` match `Machine.Alu` and `Machine.Step`;
  - `RamRead` and `RamWrite` read or replace exactly one cell;
  - `Run` returns `Machine.Run` of its starting state;
  - `Load`, with its loop body `LoadLine`, writes `Loader.Stored(lines)` at addresses 0, 1, 2, … and reports `Loader.Program(lines)`'s error.

Where the code and the LS-8 architecture disagree, the model follows the code:

- LS-8 registers are 8-bit, so MUL and ADD are meant to wrap modulo 256. The code multiplies and adds Python integers without masking. `ExecMul` and `Alu` keep the full result, and `Machine.MulKeepsFullProduct` shows it: 200 × 2 gives 400, not 144.
- By the same rule, PRN after `LDI r, v` would print `v mod 256`. In the code it prints `v` (`Machine.LdiThenPrn`).

Termination of `run` needs no fuel. Every handler moves `pc` forward, and a fetch at `pc >= 256` is an error, so `Run` decreases `256 - pc`.

## Model

| member | source | states |
|---|---|---|
| Machine.Init | ls8/cpu.py:16-22 | a fresh CPU has 256 zero RAM cells, R0-R6 zero, R7 = 0xF4, pc 0, running, nothing printed |
| Cpu.CPU.constructor | ls8/cpu.py:16-22 | the new object's state is `Init()`, with fresh RAM and register arrays |
| Machine.Boot | ls8/cpu.py:16-22 | a fresh CPU with a program in RAM from address 0 and zeros after it, registers as in `Init` |
| Machine.Width | ls8/cpu.py:32-68 | each handler's instruction is one to three bytes long: the amount its handler adds to pc |
| Machine.Ready | ls8/cpu.py:36-68 | the condition under which a handler's indices stay in range: its operand bytes lie inside RAM and its first operand names a register |
| Machine.Opcode | ls8/cpu.py:5-30 | each handler has an opcode byte below 256 under which the branch table holds exactly that handler |
| Machine.BranchTableKeys | ls8/cpu.py:24-30 | an opcode is in the branch table if and only if it is the opcode of one of the six handlers |
| Machine.ExecHlt | ls8/cpu.py:32-34 | HLT clears running and advances pc by 1; RAM, registers and output are unchanged |
| Machine.ExecLdi | ls8/cpu.py:36-40 | LDI sets register ram[pc+1] to ram[pc+2] and advances pc by 3; other registers, RAM, running and output are unchanged |
| Machine.ExecPrn | ls8/cpu.py:42-45 | PRN appends register ram[pc+1] to the output and advances pc by 2; RAM, registers and running are unchanged |
| Machine.ExecMul | ls8/cpu.py:47-51 | MUL sets register a to reg[a] * reg[b] with no reduction to 8 bits and advances pc by 3; everything else is unchanged |
| Machine.ExecPush | ls8/cpu.py:53-61 | PUSH decrements SP, then stores the register (for R7, the decremented SP) at the new SP; no other cell or register changes; pc advances by 2 |
| Machine.ExecPop | ls8/cpu.py:63-68 | POP loads ram[SP] into the register, then increments SP (for R7, the popped value is incremented); RAM is unchanged; pc advances by 2 |
| Machine.Execute | ls8/cpu.py:159 | calling a handler moves pc on by its width, clears running only for HLT, prints only for PRN and writes RAM only for PUSH |
| Machine.Step | ls8/cpu.py:157-159 | a fetch beyond RAM is an out-of-range fault; a successful step had pc < 256 and an opcode in the table, moved pc forward and stopped running exactly on HLT; an opcode missing from the table is an illegal-instruction fault |
| Machine.Dispatch | ls8/cpu.py:157-159 | when pc holds a handler's opcode, the step succeeds exactly when that handler's indices are in range, and then it is exactly that handler; otherwise it is an out-of-range fault |
| Machine.Run | ls8/cpu.py:155-159 | `while self.running` dispatch terminates, ending in a state whose RAM and register file keep their sizes |
| Machine.Alu | ls8/cpu.py:126-133 | any operation but ADD is an unsupported-operation error, whatever the indices; ADD is an out-of-range fault exactly when an index is outside the register file, and otherwise sets reg[a] to reg[a] + reg[b] and changes nothing else |
| Machine.HltStopsRun | ls8/cpu.py:32-34 | a run that starts on HLT halts after executing only HLT |
| Machine.IllegalOpcodeStopsRun | ls8/cpu.py:157-159 | a run that fetches an opcode missing from the table faults with that opcode and no state change |
| Machine.RunHaltsOnHlt | ls8/cpu.py:155-159 | when a run halts, the machine is stopped and the cell just before the final pc holds the HLT opcode |
| Machine.RunExtendsOutput | ls8/cpu.py:155-159 | a run only appends to what was printed and never moves pc backwards |
| Machine.PushPopRoundTrip | ls8/cpu.py:53-68 | PUSH r then POP d (d not SP) restores SP, leaves the pushed value in d, moves pc by 4 and changes only the stack cell in RAM |
| Machine.LdiThenPrn | ls8/cpu.py:36-45 | LDI r, v followed by PRN r prints v |
| Machine.Print8 | ls8/cpu.py:83-91 | the print8 program halts having printed exactly 8, with pc 6 and R0 = 8 |
| Machine.MulKeepsFullProduct | ls8/cpu.py:47-51 | MUL of 200 by 2 leaves 400 in the register |
| Cpu.CPU.RamRead | ls8/cpu.py:70-71 | returns the cell at an address inside RAM, and an out-of-range fault for any other address |
| Cpu.CPU.RamWrite | ls8/cpu.py:73-74 | at an address inside RAM the new state is the old one with that one cell replaced; at any other address it is an out-of-range fault and nothing changes |
| Cpu.CPU.Hlt | ls8/cpu.py:32-34 | the object's new state is `ExecHlt` of its old state |
| Cpu.CPU.Ldi | ls8/cpu.py:36-40 | the object's new state is `ExecLdi` of its old state |
| Cpu.CPU.Prn | ls8/cpu.py:42-45 | the object's new state is `ExecPrn` of its old state |
| Cpu.CPU.Mul | ls8/cpu.py:47-51 | the object's new state is `ExecMul` of its old state |
| Cpu.CPU.Push | ls8/cpu.py:53-61 | the object's new state is `ExecPush` of its old state |
| Cpu.CPU.Pop | ls8/cpu.py:63-68 | the object's new state is `ExecPop` of its old state |
| Cpu.CPU.Alu | ls8/cpu.py:126-133 | the registers become what `Machine.Alu` computes, or its error (unsupported operation or bad index) is reported and nothing changes |
| Cpu.CPU.Step | ls8/cpu.py:158-159 | the object moves to `Machine.Step` of its old state, or reports that step's fault and stays unchanged |
| Cpu.CPU.Run | ls8/cpu.py:155-159 | the loop ends in the final state and with the stop reason that `Machine.Run` gives for the starting state |
| Cpu.CPU.Load | ls8/cpu.py:99-124 | RAM from address 0 holds `Stored(lines)` and the rest is unchanged; the result is an error exactly when `Program(lines)` is an error, and the same one |
| Cpu.CPU.LoadLine | ls8/cpu.py:100-116 | one line is skipped, stored at the next address, or ends the load with the whole file's error |
| Binary.Value | ls8/cpu.py:110 | a numeral of n binary digits denotes a number below 2^n |
| Binary.ParseBinary | ls8/cpu.py:110 | `int(t, 2)` succeeds exactly on non-empty strings of 0s and 1s |
| Binary.Bits | ls8/cpu.py:110 | the binary numeral `format(n, 'b')` writes is non-empty, made of 0s and 1s, denotes n, and has no leading zero unless it is `0` |
| Binary.Padded | ls8/cpu.py:110 | the eight-or-more digits `format(n, '#010b')` writes after `0b` are the numeral of n, left-filled with zeros to the width |
| Binary.LeadingZeros | ls8/cpu.py:110 | leading zeros do not change a numeral's value |
| Binary.ParseBits | ls8/cpu.py:110 | parsing the binary numeral of n gives n |
| Binary.ParsePadded | ls8/cpu.py:110 | parsing the zero-padded digits of `format(n, '#010b')` gives n back, at any width |
| Loader.TokenStartPlace | ls8/cpu.py:100 | stripping stops at the first non-whitespace character, and everything before it is whitespace |
| Loader.WordPlace | ls8/cpu.py:101 | a word is a whitespace-free prefix that ends at whitespace or at the end of the text |
| Loader.FirstToken | ls8/cpu.py:100-101 | a first token, when there is one, is non-empty |
| Loader.FirstTokenPlace | ls8/cpu.py:100-101 | there is no token exactly when the line is all whitespace; otherwise the token follows the leading whitespace, contains none, and ends at whitespace or at the end of the line |
| Loader.Skipped | ls8/cpu.py:103-107 | a line is skipped exactly when it is blank or its first non-whitespace character is `#` |
| Loader.LineToken | ls8/cpu.py:103-107 | a line contributes at most one token, and none exactly when it is blank or its first non-whitespace character is `#` |
| Loader.Accepted | ls8/cpu.py:99-107 | no more tokens are accepted than there are lines |
| Loader.AcceptedTokens | ls8/cpu.py:99-107 | every accepted token is non-empty, has no whitespace and does not start with `#` |
| Loader.Scan | ls8/cpu.py:109-116 | no more values are stored than there are tokens |
| Loader.ScanMeaning | ls8/cpu.py:109-116 | the stored values are the values of the leading valid tokens, in order; there is no error exactly when every token was stored; an error names the first invalid token |
| Loader.Stored | ls8/cpu.py:109-116 | the values written to RAM from address 0 are, in order, the values of the first accepted tokens, at most one per accepted token |
| Loader.Program | ls8/cpu.py:99-124 | a loaded program is the stored values and is never empty |
| Loader.AcceptedAppend | ls8/cpu.py:99-107 | the accepted tokens of two files joined are those of the first followed by those of the second |
| Loader.ScanAfterError | ls8/cpu.py:112-114 | once a token is invalid, later tokens change nothing |
| Loader.ScanPrefix | ls8/cpu.py:109-116 | what a prefix of the tokens stores is a prefix of what the whole stores |
| Loader.ProgramOk | ls8/cpu.py:99-124 | a file loads as p exactly when some line is accepted and p lists the values of all accepted tokens |
| Loader.ScanStopsAt | ls8/cpu.py:109-114 | the load stops at the first invalid token, with every earlier token stored |
| Loader.ProgramInvalidNumber | ls8/cpu.py:109-114 | the load fails on token t exactly when t is the first accepted token that is not a binary numeral |
| Loader.ProgramEmpty | ls8/cpu.py:122-124 | the empty-program error is raised exactly when no line is accepted |
| Loader.SkippedLineIgnored | ls8/cpu.py:103-107 | inserting a blank or comment line anywhere changes neither the accepted tokens nor the program |
| Loader.FirstTokenDecides | ls8/cpu.py:101-107 | files whose lines have the same first tokens load alike, so later tokens on a line are ignored |
| Loader.AcceptedSplit | ls8/cpu.py:99-107 | the tokens of a file are those of its first i lines followed by those of the rest |
| Loader.LinePrefix | ls8/cpu.py:99-116 | the first i lines store a prefix of what the file stores, and an error there is the file's error |
| Loader.LoadSkipped | ls8/cpu.py:103-107 | a skipped line leaves the loading loop's state as it was |
| Loader.LoadValue | ls8/cpu.py:109-116 | a line with a valid numeral stores its value next, and the value is within the file's program |
| Loader.LoadInvalid | ls8/cpu.py:109-114 | a line with an invalid first token ends the load with that token as the file's error, after what was stored |
| Loader.LoadEnd | ls8/cpu.py:116-124 | after the last line without error, the stored values are the file's, and the load fails exactly when none were stored |

## Left out

- File and process handling in `load`: the `sys.argv` check, `open`, `FileNotFoundError` and the exit codes. A program file is given as its sequence of lines, and an error is returned rather than printed and exited on.
- The console: PRN's `print` is modelled as a value appended to the `output` sequence. `trace` is debugging output only and is not modelled.
- Cells and registers hold integers. In Python the cells `load` writes hold `'0b…'` strings, and the branch table is keyed by the same strings. For those cells, keying the table by numbers behaves the same. The other cells hold Python integers: the zeros of a fresh CPU, and what PUSH stores from a register that holds an integer (ls8/cpu.py:56-59). That is a register LDI or the initial stack pointer filled, or one MUL or ADD computed from integers. A register that POP filled from a loaded cell holds that cell's `'0b…'` string, and PUSH copies the string on. For example, `LDI R7,0; POP R0; LDI R7,200; PUSH R0` puts `'0b10000010'` in cell 199, which Python then dispatches as LDI, as the model does. In Python, fetching an integer cell as an opcode raises `KeyError`, and reading it as an operand with `int(v, 2)` raises `TypeError`. The model dispatches and reads these cells by their number.
- POP copies a cell into a register unchanged (ls8/cpu.py:65-66). Popping a cell that `load` wrote therefore puts the string `'0b…'` into a register. For example, `LDI R7,0; POP R0; PRN R0` prints `0b10000010` in Python and 130 in the model. The model holds the number. Python goes on differently in five cases:
  - MUL of such a register by an integer register repeats the string.
  - MUL of two such registers raises `TypeError` (ls8/cpu.py:50).
  - ADD of such a register and an integer register raises `TypeError` (ls8/cpu.py:130).
  - ADD of two such registers joins the two strings.
  - POP R7 of a loaded cell sets R7 to the string and then raises `TypeError` at `self.reg[7] += 1` (ls8/cpu.py:67). For example, `Run(Boot([0x82, 7, 0, 0x46, 7, 0x01]))` halts in the model with R7 = 131, where Python crashes.

  In each of these the model multiplies, adds or increments the number.
- Machine.ExecPop: for POP R7 it increments the popped value, as the code does for integer cells. For a cell `load` wrote, Python raises `TypeError` there instead (see the line above).
- Binary.ParsePadded: shows that the digits `format(n, '#010b')` writes after its `0b` prefix read back as n. The model's `ParseBinary` does not accept the `0b` prefix itself, so the full cell text is not shown to read back.
- `int(token, 2)` is modelled on tokens made of the ASCII digits 0 and 1. Python also accepts a `0b` prefix, underscores, a sign, and non-ASCII decimal digits of value 0 and 1 (such as the Arabic-Indic ones). Such tokens are treated as invalid numerals here.
- Cpu.CPU.Load: requires that the file stores at most 256 values. Python raises `IndexError` on the 257th store, and that crash is not modelled.
- Loader.Program, Loader.ProgramOk, Loader.Stored: these describe the load of a file of any length. A file with more than 256 accepted numerals therefore loads here, while Python's `load` raises `IndexError` at ls8/cpu.py:110. Only `Cpu.CPU.Load`'s requires bounds the length.
- Machine.Step: a handler whose indices leave RAM or the register file is an `OutOfRange` fault. This covers an operand cell outside 0..7, a `pc + k` of 256 or more, and a PUSH or POP stack pointer outside RAM. Python would instead use a negative index from the end (`ram[-1]`, `reg[-1]`) where the index is -1 down to -256 or -8.
- Machine.Alu: a register index outside 0..7 is an `OutOfRange` fault. Python raises `IndexError` for an index of 8 or more, which matches, but for -1 down to -8 it counts back from the end: `alu("ADD", -1, 0)` adds into R7.
- Cpu.CPU.RamRead: an address outside 0..255 is an `OutOfRange` fault. Python raises `IndexError` for 256 or more, which matches, but `ram_read(-1)` returns cell 255.
- Cpu.CPU.RamWrite: an address outside 0..255 is an `OutOfRange` fault and writes nothing. Python raises `IndexError` for 256 or more, which matches, but `ram_write(v, -1)` writes cell 255.
- Machine.Step: a fault leaves the state as it was before the instruction. In Python, a PUSH that fails has already decremented R7 (ls8/cpu.py:54). This covers a failure in its operand read (ls8/cpu.py:55), its register read (ls8/cpu.py:56) or its stack write (ls8/cpu.py:59).
- Instructions the source does not implement are not modelled: CMP, CALL, RET, JMP, JEQ, JNE, ST, AND, PRA, the flags, and modulo-256 arithmetic. An opcode missing from the branch table is an illegal-instruction fault.
