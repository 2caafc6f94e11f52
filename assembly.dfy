/** The meaning of the assembly lines this core emits: a decoder from the text to
    RISC-V instructions, and the effect of those instructions on the registers and on
    memory. Used as the reference against which the emitted text is checked. */
module Assembly {
  import opened Wrappers
  import opened Registers
  import opened Text

  /** The instruction forms the core emits: `li`, `mv`, `addi`, `sd` and `ld`. */
  datatype Instr =
    | Li(rd: Reg, imm: int)
    | Mv(rd: Reg, rs: Reg)
    | Addi(rd: Reg, rs: Reg, imm: int)
    | Sd(rs: Reg, offset: int, base: Reg)
    | Ld(rd: Reg, offset: int, base: Reg)

  /** A register operand followed by the separator ", "; returns the register and the rest. */
  function RegThenComma(s: string): Option<(Reg, string)>
  {
    var (tok, rest) := TakeUntil(s, ',');
    if |rest| >= 2 && rest[..2] == ", " then
      match RegFromName(tok)
      case Some(r) => Some((r, rest[2..]))
      case None => None
    else None
  }

  /** A memory operand `offset(base)`. */
  function MemOperand(s: string): Option<(int, Reg)>
  {
    var (tok, rest) := TakeUntil(s, '(');
    if |rest| >= 2 && rest[|rest| - 1] == ')' then
      match (ParseInt(tok), RegFromName(rest[1..|rest| - 1]))
      case (Some(off), Some(base)) => Some((off, base))
      case _ => None
    else None
  }

  /** The instruction a line of text spells, tab-indented as the core writes it;
      None for anything else. */
  function Decode(line: string): Option<Instr>
  {
    if "\tli " <= line then
      match RegThenComma(line[4..])
      case Some((rd, rest)) =>
        (match ParseInt(rest) case Some(v) => Some(Li(rd, v)) case None => None)
      case None => None
    else if "\tmv " <= line then
      match RegThenComma(line[4..])
      case Some((rd, rest)) =>
        (match RegFromName(rest) case Some(rs) => Some(Mv(rd, rs)) case None => None)
      case None => None
    else if "\taddi " <= line then
      match RegThenComma(line[6..])
      case Some((rd, rest)) =>
        (match RegThenComma(rest)
         case Some((rs, rest2)) =>
           (match ParseInt(rest2) case Some(v) => Some(Addi(rd, rs, v)) case None => None)
         case None => None)
      case None => None
    else if "\tsd " <= line then
      match RegThenComma(line[4..])
      case Some((rs, rest)) =>
        (match MemOperand(rest) case Some((off, base)) => Some(Sd(rs, off, base)) case None => None)
      case None => None
    else if "\tld " <= line then
      match RegThenComma(line[4..])
      case Some((rd, rest)) =>
        (match MemOperand(rest) case Some((off, base)) => Some(Ld(rd, off, base)) case None => None)
      case None => None
    else None
  }

  /** Decodes every line, or fails if one does not decode. */
  function DecodeAll(lines: seq<string>): Option<seq<Instr>>
  {
    if lines == [] then Some([])
    else match (Decode(lines[0]), DecodeAll(lines[1..]))
      case (Some(i), Some(rest)) => Some([i] + rest)
      case _ => None
  }

  /** Lines that each decode decode together as the list of their instructions. */
  lemma {:induction false} DecodeAllOfEach(lines: seq<string>, instrs: seq<Instr>)
    requires |lines| == |instrs|
    requires forall k :: 0 <= k < |lines| ==> Decode(lines[k]) == Some(instrs[k])
    ensures DecodeAll(lines) == Some(instrs)
    decreases |lines|
  {
    if lines != [] {
      DecodeAllOfEach(lines[1..], instrs[1..]);
      assert instrs == [instrs[0]] + instrs[1..];
    }
  }

  /** A register operand followed by ", " reads back as that register and the rest. */
  lemma RegThenCommaOf(r: Reg, rest: string)
    ensures RegThenComma(Name(r) + ", " + rest) == Some((r, rest))
  {
    var s := Name(r) + ", " + rest;
    assert Name(r) + ", " + rest == Name(r) + (", " + rest);
    TakeUntilConcat(Name(r), ", " + rest, ',');
    NameRoundTrip(r);
    assert (", " + rest)[2..] == rest;
  }

  /** `str(off) + "(" + base + ")"` reads back as the memory operand `off(base)`. */
  lemma MemOperandOf(off: int, base: Reg)
    ensures MemOperand(IntToString(off) + ("(" + Name(base) + ")")) == Some((off, base))
  {
    var tail := "(" + Name(base) + ")";
    IntToStringChars(off);
    TakeUntilConcat(IntToString(off), tail, '(');
    assert tail[1..|tail| - 1] == Name(base);
    ParseIntToString(off);
    NameRoundTrip(base);
  }

  // ---------------------------------------------------------------------------
  // Execution. Registers hold unbounded integers (64-bit wrap-around is not modelled);
  // memory maps the address of each doubleword to its value.

  datatype Machine = Machine(x: seq<int>, mem: map<int, int>)

  predicate WellFormed(m: Machine) {
    |m.x| == NumRegs
  }

  /** The value of a register; x0 always reads as zero. */
  function Read(m: Machine, r: Reg): int
    requires WellFormed(m)
  {
    if r == zero then 0 else m.x[Ordinal(r)]
  }

  /** Sets a register; writes to x0 are discarded. */
  function Write(m: Machine, r: Reg, v: int): (m': Machine)
    requires WellFormed(m)
    ensures WellFormed(m')
  {
    if r == zero then m else m.(x := m.x[Ordinal(r) := v])
  }

  /** The effect of one instruction; None when a load reads a doubleword never written. */
  function Step(m: Machine, i: Instr): (r: Option<Machine>)
    requires WellFormed(m)
    ensures r.Some? ==> WellFormed(r.value)
  {
    match i
    case Li(rd, imm) => Some(Write(m, rd, imm))
    case Mv(rd, rs) => Some(Write(m, rd, Read(m, rs)))
    case Addi(rd, rs, imm) => Some(Write(m, rd, Read(m, rs) + imm))
    case Sd(rs, off, base) => Some(m.(mem := m.mem[Read(m, base) + off := Read(m, rs)]))
    case Ld(rd, off, base) =>
      var addr := Read(m, base) + off;
      if addr in m.mem then Some(Write(m, rd, m.mem[addr])) else None
  }

  /** Runs instructions in order, stopping at the first fault. */
  function Run(m: Machine, prog: seq<Instr>): (r: Option<Machine>)
    requires WellFormed(m)
    ensures r.Some? ==> WellFormed(r.value)
    decreases |prog|
  {
    if prog == [] then Some(m)
    else match Step(m, prog[0])
      case None => None
      case Some(next) => Run(next, prog[1..])
  }

  /** Running two blocks in sequence is running their concatenation. */
  lemma {:induction false} RunAppend(m: Machine, p: seq<Instr>, q: seq<Instr>)
    requires WellFormed(m)
    ensures Run(m, p + q) == match Run(m, p) case None => None case Some(m') => Run(m', q)
    decreases |p|
  {
    if p != [] {
      assert (p + q)[0] == p[0] && (p + q)[1..] == p[1..] + q;
      match Step(m, p[0])
      case None =>
      case Some(m') => RunAppend(m', p[1..], q);
    } else {
      assert p + q == q;
    }
  }
}
