/** The instruction buffer: an append-only list of assembly lines. */
module Instructions {
  import opened Wrappers
  import opened Registers
  import opened Text
  import opened Assembly

  /** The line `load_imm(reg, value)` appends. */
  function LoadImmLine(reg: Reg, value: int): string
  {
    "\tli " + Name(reg) + ", " + IntToString(value)
  }

  /** The line `mv(dest_reg, src_reg)` appends. */
  function MvLine(dest: Reg, src: Reg): string
  {
    "\tmv " + Name(dest) + ", " + Name(src)
  }

  /** The `load_imm` line is the instruction `li reg, value`: its text loses neither
      the register nor the value. */
  lemma LoadImmMeans(reg: Reg, value: int)
    ensures Decode(LoadImmLine(reg, value)) == Some(Li(reg, value))
  {
    var line := LoadImmLine(reg, value);
    var operands := Name(reg) + ", " + IntToString(value);
    AppendAssoc("\tli " + Name(reg), ", ", IntToString(value));
    AppendAssoc("\tli ", Name(reg), ", " + IntToString(value));
    AppendAssoc(Name(reg), ", ", IntToString(value));
    assert "\tli " <= line && line[4..] == operands;
    RegThenCommaOf(reg, IntToString(value));
    ParseIntToString(value);
  }

  /** The `mv` line is the instruction `mv dest, src`. */
  lemma MvMeans(dest: Reg, src: Reg)
    ensures Decode(MvLine(dest, src)) == Some(Mv(dest, src))
  {
    var line := MvLine(dest, src);
    var operands := Name(dest) + ", " + Name(src);
    AppendAssoc("\tmv " + Name(dest), ", ", Name(src));
    AppendAssoc("\tmv ", Name(dest), ", " + Name(src));
    AppendAssoc(Name(dest), ", ", Name(src));
    assert !("\tli " <= line) by {
      assert line[1] == 'm';
    }
    assert "\tmv " <= line && line[4..] == operands;
    RegThenCommaOf(dest, Name(src));
    NameRoundTrip(src);
  }

  class InstructionMaker {
    var instrBuffer: seq<string>

    /** A maker with an empty buffer, as `reset` leaves it. */
    constructor ()
      ensures instrBuffer == []
    {
      instrBuffer := [];
    }

    method Reset()
      modifies this
      ensures instrBuffer == []
    {
      instrBuffer := [];
    }

    /** Appends `li reg, value`; the lines already emitted stay as they were. */
    method LoadImm(reg: Reg, value: int)
      modifies this
      ensures instrBuffer == old(instrBuffer) + [LoadImmLine(reg, value)]
    {
      instrBuffer := instrBuffer + [LoadImmLine(reg, value)];
    }

    /** Appends `mv dest, src`; the lines already emitted stay as they were. */
    method Mv(dest: Reg, src: Reg)
      modifies this
      ensures instrBuffer == old(instrBuffer) + [MvLine(dest, src)]
    {
      instrBuffer := instrBuffer + [MvLine(dest, src)];
    }
  }

  /** One call to the maker: `load_imm(reg, value)` or `mv(dest_reg, src_reg)`. */
  datatype Emit = LoadImmCall(reg: Reg, value: int) | MvCall(dest: Reg, src: Reg)

  /** The line a call appends. */
  function LineOf(call: Emit): string
  {
    match call
    case LoadImmCall(reg, value) => LoadImmLine(reg, value)
    case MvCall(dest, src) => MvLine(dest, src)
  }

  /** The instruction a call asks for. */
  function InstrOf(call: Emit): Instr
  {
    match call
    case LoadImmCall(reg, value) => Li(reg, value)
    case MvCall(dest, src) => Mv(dest, src)
  }

  /** Whatever calls are made, in whatever order, the buffer they fill decodes to exactly
      the instructions those calls asked for, one per call and in call order. */
  lemma EmitInOrder(calls: seq<Emit>)
    ensures DecodeAll(seq(|calls|, k requires 0 <= k < |calls| => LineOf(calls[k])))
         == Some(seq(|calls|, k requires 0 <= k < |calls| => InstrOf(calls[k])))
  {
    var lines := seq(|calls|, k requires 0 <= k < |calls| => LineOf(calls[k]));
    var instrs := seq(|calls|, k requires 0 <= k < |calls| => InstrOf(calls[k]));
    forall k | 0 <= k < |lines|
      ensures Decode(lines[k]) == Some(instrs[k])
    {
      match calls[k]
      case LoadImmCall(reg, value) => LoadImmMeans(reg, value);
      case MvCall(dest, src) => MvMeans(dest, src);
    }
    DecodeAllOfEach(lines, instrs);
  }
}
