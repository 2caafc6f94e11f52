# PiFive bookkeeping core in Dafny

PiFive compiles a small subset of Python to RISC-V assembly. This project models
the compiler's bookkeeping core and proves properties of it:

- the register file and the first-fit register allocation pool (`registers.py`,
  `register_pool.py`);
- the lexical scope chain (`scope.py`);
- the frame-keyed symbol table and its symbol records (`symbol_table.py`,
  `symbols.py`);
- the locals counter that sizes a function frame (`locals_counter.py`);
- the instruction line buffer and the function header, prologue, epilogue and footer
  text (`instruction_maker.py`, `helper.py`).

Each source file has one module:

| module | file | form |
|---|---|---|
| `Registers` | registers.dfy | datatypes and functions |
| `RegisterPool` | register_pool.dfy | class over an `array<bool>` of 32 flags |
| `Scoping` | scope.dfy | class with a parent link |
| `Symbols` | symbols.dfy | datatypes |
| `SymbolTables` | symbol_table.dfy | class over a `map<string, seq<Symbol>>` |
| `Locals` | locals_counter.dfy | class over a name list, plus functions on a closed AST |
| `Instructions` | instruction_maker.dfy | class over a line buffer |
| `Helper` | helper.dfy | methods that append to an output sink |

Four supporting modules model no source file of their own:

- `Wrappers`: `Option` and `Result`.
- `Text`: Python's `str()` of an integer, and its parser.
- `PyAst`: the closed fragment of Python's AST that the locals counter walks.
- `Assembly`: a reference meaning for the emitted text. It has a decoder from a line
  to an instruction of a small RISC-V-like instruction set whose immediates are unbounded
  integers, and a register-and-memory machine that runs those instructions.

The emitted text is checked against `Assembly`. Each emitted `li`, `mv`, prologue and
epilogue line is proved to decode to the instruction it spells, and the prologue/epilogue
pair is proved to leave every register as it found it. The header and footer lines are
assembler directives, which `Decode` does not read.

Notes on the code's behaviour:

- `add_var` only refuses a name bound in the *current* scope; it does not look up the
  parent chain.
- No frame slot is assigned automatically: the `offset` of a `Variable` record is whatever the caller passes.
- `lookup_symbol` fails with distinct errors for an unknown frame and an unknown symbol.
- The pool has no `is_class_available` operation and no spilling.

## Model

| member | source | states |
|---|---|---|
| Registers.Ordinal | pifive_module/transpiler/registers.py:3-35 | every register's value is below 32, so it is a valid index into the availability table |
| Registers.OrdinalInjective | pifive_module/transpiler/registers.py:3-35 | two registers with the same value are the same register |
| Registers.FromOrdinalOfOrdinal | pifive_module/transpiler/registers.py:3-35 | the register numbered by a register's value is that register |
| Registers.OrdinalOfIndex | pifive_module/transpiler/registers.py:3-35 | every index 0..31 is the value of some register, so the values are exactly 0..31 |
| Registers.Name | pifive_module/transpiler/registers.py:3-35 | a register's `.name` is non-empty and made of lower-case letters and digits |
| Registers.NameRoundTrip | pifive_module/transpiler/registers.py:3-35 | a register's name reads back as that register, so no two registers share a name |
| Registers.Members | pifive_module/transpiler/registers.py:37-68 | the temporaries and the argument registers have 7 members and the saved registers 11 |
| Registers.MembersDistinct | pifive_module/transpiler/registers.py:37-68 | no class lists a register twice |
| Registers.MembersClassified | pifive_module/transpiler/registers.py:37-68 | each listed member is classified under its own class, at its own position |
| Registers.ClassifiedAreMembers | pifive_module/transpiler/registers.py:37-68 | each classified register is listed in its class, at its position |
| Registers.ClassOfMembers | pifive_module/transpiler/registers.py:37-68 | a register is in a class's list exactly when it is classified under that class |
| Registers.ClassesDisjoint | pifive_module/transpiler/registers.py:4-68 | no register is in two classes, and zero, ra, sp, gp, tp, fp and a0 are in none |
| Registers.UnclassifiedAreReserved | pifive_module/transpiler/registers.py:4-68 | the registers outside every class are exactly zero, ra, sp, gp, tp, fp and a0 |
| RegisterPool.FirstFree | pifive_module/transpiler/register_pool.py:12-16 | the position found is flagged free and every earlier member is taken; none is found exactly when every member is taken |
| RegisterPool.FirstFreeAt | pifive_module/transpiler/register_pool.py:12-15 | a free member preceded only by taken ones is the one the scan stops at |
| RegisterPool.NextFree | pifive_module/transpiler/register_pool.py:10-16 | the register handed out belongs to the class and is free; none is handed out exactly when every member is taken |
| RegisterPool.NextFreeIsFirst | pifive_module/transpiler/register_pool.py:12-15 | first fit: whenever some member of the class is free a register is handed out, and its position in the class list is no later than that of any free member |
| RegisterPool.RestoreUndoesNext | pifive_module/transpiler/register_pool.py:10-20 | restoring the register just handed out gives back the table as it was |
| RegisterPool.SetIdempotent | pifive_module/transpiler/register_pool.py:18-24 | restoring twice is restoring once, and taking twice is taking once |
| RegisterPool.IncreasingUnique | pifive_module/transpiler/register_pool.py:26-31 | two ascending lists with the same elements are equal, so membership and order fix the in-use list |
| RegisterPool.RegPool.constructor | pifive_module/transpiler/register_pool.py:4-8 | a new pool has all 32 registers available |
| RegisterPool.RegPool.Reset | pifive_module/transpiler/register_pool.py:7-8 | after a reset all 32 registers are available, on a new table |
| RegisterPool.RegPool.GetNextReg | pifive_module/transpiler/register_pool.py:10-16 | returns the first free member of the class and marks only it taken; returns None and leaves the table unchanged when every member is taken |
| RegisterPool.RegPool.RestoreReg | pifive_module/transpiler/register_pool.py:18-20 | the register becomes available and no other entry changes |
| RegisterPool.RegPool.TakeReg | pifive_module/transpiler/register_pool.py:22-24 | the register becomes unavailable and no other entry changes |
| RegisterPool.RegPool.IdxOfRegsInUse | pifive_module/transpiler/register_pool.py:26-31 | an index is listed exactly when it is below 32 and its register is taken, and the list is strictly ascending |
| RegisterPool.FirstTempIsT0 | pifive_module/transpiler/register_pool.py:35 | with x5 free the first temporary handed out is t0 |
| RegisterPool.SecondTempIsT1 | pifive_module/transpiler/register_pool.py:36 | with x5 taken and x6 free the next temporary handed out is t1 |
| RegisterPool.FirstArgIsA1 | pifive_module/transpiler/register_pool.py:37 | with x11 free the first argument register handed out is a1 |
| RegisterPool.DemoInUse | pifive_module/transpiler/register_pool.py:41-42 | with exactly x5, x6 and x11 taken the in-use list is [5, 6, 11] |
| RegisterPool.DemoAllocate | pifive_module/transpiler/register_pool.py:34-37 | on a fresh pool the three allocations yield t0, t1 and a1 and take exactly x5, x6 and x11 |
| RegisterPool.Demo | pifive_module/transpiler/register_pool.py:33-42 | the demonstration allocates t0, t1 and a1 and then lists [5, 6, 11] as in use |
| Symbols.NewSymbol | pifive_module/transpiler/symbols.py:8-11 | a symbol keeps its name and kind |
| Symbols.NewVariable | pifive_module/transpiler/symbols.py:13-18 | a variable is of the variable kind and keeps its name, type, register and offset |
| Symbols.NewFunction | pifive_module/transpiler/symbols.py:20-24 | a function is of the function kind and keeps its name and arguments, with `ret_reg` kept as `ret` |
| Symbols.Defaults | pifive_module/transpiler/symbols.py:13-24 | type, register, offset and return register default to None |
| SymbolTables.FirstMatch | pifive_module/transpiler/symbol_table.py:23-25 | the position found matches name and kind and no earlier symbol does; none is found exactly when no symbol matches |
| SymbolTables.Lookup | pifive_module/transpiler/symbol_table.py:19-27 | an unknown frame fails with the frame error; a result is the first symbol of the frame with that name and kind; the symbol error arises exactly when the frame exists but nothing in it matches |
| SymbolTables.Added | pifive_module/transpiler/symbol_table.py:29-33 | the frame set gains the frame; a new frame holds just the symbol, an existing one gets it appended; other frames are unchanged |
| SymbolTables.FirstMatchAppend | pifive_module/transpiler/symbol_table.py:23-33 | appending keeps an existing first match and makes the new symbol the first match of a list that had none |
| SymbolTables.AddThenLookup | pifive_module/transpiler/symbol_table.py:19-33 | after adding a symbol, looking it up by its own name and kind finds it, unless an earlier symbol of that name and kind shadows it |
| SymbolTables.AddKeepsOtherFrames | pifive_module/transpiler/symbol_table.py:29-33 | adding to one frame changes no lookup answer in another frame |
| SymbolTables.SymbolTable.constructor | pifive_module/transpiler/symbol_table.py:6-11 | a new table has no frames |
| SymbolTables.SymbolTable.Reset | pifive_module/transpiler/symbol_table.py:9-11 | after a reset the table has no frames |
| SymbolTables.SymbolTable.LookupSymbol | pifive_module/transpiler/symbol_table.py:19-27 | the scan answers what `Lookup` specifies |
| SymbolTables.SymbolTable.AddSymbol | pifive_module/transpiler/symbol_table.py:29-33 | the table becomes what `Added` specifies |
| Scoping.Scope.AncestorsAreHigher | pifive_module/transpiler/scope.py:9-10 | the parent chain is well founded: no scope is its own ancestor |
| Scoping.Scope.constructor | pifive_module/transpiler/scope.py:9-12 | a new scope has the given parent and no variables or functions |
| Scoping.Scope.AddVar | pifive_module/transpiler/scope.py:14-16 | binds the variable under its name only if this scope does not bind the name yet; no ancestor changes; afterwards the name resolves to this scope's binding |
| Scoping.Scope.LookupVar | pifive_module/transpiler/scope.py:18-24 | this scope's binding shadows its parents'; a result is the binding of the innermost scope binding the name; lookup fails with the undefined-name error exactly when no scope in the chain binds it |
| Locals.AfterExprSpec | pifive_module/transpiler/locals_counter.py:25-31 | visiting an expression only appends new, out-of-scope names: exactly the out-of-scope names it assigns that were not listed |
| Locals.AfterExprsSpec | pifive_module/transpiler/locals_counter.py:25-31 | the same for a list of expressions visited in order |
| Locals.AfterStmtSpec | pifive_module/transpiler/locals_counter.py:17-31 | visiting a statement fails exactly when one of its assignments has other than one target; otherwise it appends exactly the new out-of-scope names the statement assigns |
| Locals.AfterStmtsSpec | pifive_module/transpiler/locals_counter.py:13-31 | the same for a statement list visited in order |
| Locals.CollectSpec | pifive_module/transpiler/locals_counter.py:5-34 | counting fails exactly on a multi-target assignment; otherwise the list starts with the parameters in order, the names after them are distinct from every other entry and not in scope, and a name is listed exactly when it is a parameter or an assigned out-of-scope name |
| Locals.AssignIgnoresValue | pifive_module/transpiler/locals_counter.py:17-23 | the value of an assignment never affects the count, only its target does |
| Locals.LocalsCounter.Empty | pifive_module/transpiler/locals_counter.py:6-7 | a counter starts with no names and the given scope query |
| Locals.LocalsCounter.New | pifive_module/transpiler/locals_counter.py:5-15 | construction lists the parameters, then visits the body, and ends with what `Collect` specifies, failing exactly when it fails |
| Locals.LocalsCounter.VisitStmt | pifive_module/transpiler/locals_counter.py:14-23 | visiting a statement leaves the list `AfterStmt` specifies, or reports its error |
| Locals.LocalsCounter.VisitStmts | pifive_module/transpiler/locals_counter.py:14-15 | visiting statements in order leaves the list `AfterStmts` specifies, or reports the first error |
| Locals.LocalsCounter.VisitAssign | pifive_module/transpiler/locals_counter.py:17-23 | other than one target fails and changes nothing; one target visits only that target |
| Locals.LocalsCounter.VisitExpr | pifive_module/transpiler/locals_counter.py:23-31 | visiting an expression leaves the list `AfterExpr` specifies |
| Locals.LocalsCounter.VisitExprs | pifive_module/transpiler/locals_counter.py:23-31 | visiting expressions in order leaves the list `AfterExprs` specifies |
| Locals.LocalsCounter.Count | pifive_module/transpiler/locals_counter.py:33-34 | the number of names listed; with `Locals.LocalsCounter.New` and `Locals.CountOfCollect`, a counter built for a function counts its parameters plus each distinct out-of-scope name its body assigns that is not a parameter |
| Locals.CountOfCollect | pifive_module/transpiler/locals_counter.py:5-34 | `count()` after construction is the number of parameters plus the number of distinct assigned names that are neither parameters nor in scope; `Locals.CollectSpec` gives the list's order and membership |
| Locals.LocalsCounter.VisitName | pifive_module/transpiler/locals_counter.py:25-31 | an assigned name is appended exactly when it is not listed and not in scope; otherwise nothing changes |
| Instructions.LoadImmMeans | pifive_module/transpiler/instruction_maker.py:13-14 | the `li` line decodes to loading that value into that register |
| Instructions.MvMeans | pifive_module/transpiler/instruction_maker.py:16-17 | the `mv` line decodes to copying the source register into the destination |
| Instructions.InstructionMaker.constructor | pifive_module/transpiler/instruction_maker.py:4-8 | a new maker has an empty buffer |
| Instructions.InstructionMaker.Reset | pifive_module/transpiler/instruction_maker.py:7-8 | after a reset the buffer is empty |
| Instructions.InstructionMaker.LoadImm | pifive_module/transpiler/instruction_maker.py:13-14 | appends exactly the `li` line and keeps every earlier line |
| Instructions.InstructionMaker.Mv | pifive_module/transpiler/instruction_maker.py:16-17 | appends exactly the `mv` line and keeps every earlier line |
| Instructions.EmitInOrder | pifive_module/transpiler/instruction_maker.py:13-17 | for any sequence of `load_imm` and `mv` calls, the lines they append decode to exactly the instructions asked for, one per call and in call order |
| Helper.Output.Writeln | pifive_module/transpiler/output.py:9-10 | writes one line after those already written |
| Helper.FunctionHeader | pifive_module/transpiler/helper.py:4-7 | appends `.align 1`, `.globl name`, `.type name, @function`, in that order |
| Helper.FunctionProlog | pifive_module/transpiler/helper.py:9-13 | appends the four prologue lines, in order |
| Helper.FunctionEpilogue | pifive_module/transpiler/helper.py:15-18 | appends the three epilogue lines, in order |
| Helper.FunctionFooter | pifive_module/transpiler/helper.py:21-22 | appends `.size name, .-name` |
| Helper.AddiLine | pifive_module/transpiler/helper.py:10-18 | an `addi` line as written decodes to the `addi` its immediate text spells |
| Helper.StoreLine | pifive_module/transpiler/helper.py:11-12 | an `sd` line as written decodes to the store of that register at that offset |
| Helper.LoadLine | pifive_module/transpiler/helper.py:16-17 | an `ld` line as written decodes to the load of that register from that offset |
| Helper.PrologOpens | pifive_module/transpiler/helper.py:10 | the first prologue line decodes to lowering sp by the frame size |
| Helper.PrologMeans | pifive_module/transpiler/helper.py:9-13 | the prologue text decodes to exactly: lower sp by n, store ra at n-8, store fp at n-16, set fp to sp+n |
| Helper.EpilogueMeans | pifive_module/transpiler/helper.py:15-18 | the epilogue text decodes to exactly: load ra from n-8, load fp from n-16, raise sp by n; there is no return instruction |
| Helper.PrologSavesFrame | pifive_module/transpiler/helper.py:9-13 | the prologue lowers sp by n, sets fp to the old sp, changes no other register, and saves ra and fp in the two doublewords below the old sp |
| Helper.EpilogueRestores | pifive_module/transpiler/helper.py:9-18 | the epilogue reloads from the slots the prologue stored to, and the two sp adjustments cancel, so every register ends as it began |

## Left out

- `transpiler.py`, the lowering visitor, is not part of this model. It calls methods that do not exist, so it has no coherent behaviour to specify.
- The output sink writes to a file or standard output. It is modelled as the list of lines written (`Helper.Output`).
- `InstructionMaker.print` and the `__main__` print blocks are console output. They are left out. The values the register pool demonstration prints are stated by `RegisterPool.Demo`.
- Left out as outside the compiler: the command-line entry points, the test harness and the hand-written C example.
- `SymbolTable.save_and_free_reg` and `save_and_free_all_regs` are empty stubs.
- Python's `ast` module and `NodeVisitor.generic_visit` are not part of this model. They are replaced by the closed AST in `PyAst`. The visitors recurse into every child that `PyAst` keeps, in field order. Only positional parameters are modelled.
- `generic_visit` also reaches Store names inside any statement or expression kind `PyAst` lacks, and the model does not count them. Among them:
  - `for` loops, both the target and the assignments in the body (`PyAst` has no `For`);
  - `with … as x` targets, and the bodies of `with` and `try`;
  - the targets of `AugAssign` and `AnnAssign`, and `Starred` and `List` assignment targets;
  - comprehension targets and `:=` targets inside any visited expression;
  - assignments inside a nested `def`, which the counter adds to the outer function's frame;
  - the `else:` body of a `while` loop (`PyAst.While` has no `orelse`);
  - the keyword arguments of a call (`Call.keywords` is dropped).
- `in_scope` is called by `locals_counter.py` but is not defined by `scope.py`. As written, every assigned name would therefore stop the counter with an attribute error. The model takes `in_scope` as a parameter: a predicate on names.
- `lookup_var` ends with `raise` applied to a string, which Python 3 rejects with a type error. Either way the call fails, and the model returns `Undefined(name)`.
- `Scope._functions` is only ever created empty, and nothing reads it or writes to it.
- Python objects are shared by reference, and the model's symbols and variables are values. `lookup_symbol` returns the stored `Symbol` object (symbol_table.py:25). `lookup_var` returns the stored `Variable` (scope.py:20). `Function` keeps the caller's `args` list (symbols.py:24). So a caller's later `sym.reg = …` changes what the table and the scope hold; the model cannot show this.
- `load_imm` formats its value with `{value}`. The model takes the value as an integer.
- Assembly machine: registers hold unbounded integers, so RISC-V's 64-bit wrap-around is not modelled. Memory maps each doubleword address to a value, so partly overlapping doublewords and alignment are not modelled.
- Assembly: immediates are unbounded. RISC-V's `addi`, `sd` and `ld` immediates are 12-bit signed and `li`'s are 64-bit, so a frame above 2047 bytes, or a larger `load_imm` value, gives text an assembler rejects. `Helper.PrologMeans`, `Helper.EpilogueMeans` and `Instructions.LoadImmMeans` do not catch this.
- Helper.PrologMeans: requires a non-negative frame size, because a negative one prints as `--k`, which is not an immediate.
