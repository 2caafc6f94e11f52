/** The assembler directives and stack-frame code written around each function. */
module Helper {
  import opened Wrappers
  import opened Registers
  import opened Text
  import opened Assembly

  /** The output sink: the lines written so far, in order. */
  class Output {
    var lines: seq<string>

    constructor ()
      ensures lines == []
    {
      lines := [];
    }

    /** Writes one line after those already written. */
    method Writeln(text: string)
      modifies this
      ensures lines == old(lines) + [text]
    {
      lines := lines + [text];
    }
  }

  function HeaderLines(name: string): seq<string>
  {
    ["\t.align 1", "\t.globl " + name, "\t.type " + name + ", @function"]
  }

  function PrologLines(framesize: int): seq<string>
  {
    [ "\taddi sp, sp, -" + IntToString(framesize),
      "\tsd ra, " + IntToString(framesize - 8) + "(sp)",
      "\tsd fp, " + IntToString(framesize - 16) + "(sp)",
      "\taddi fp, sp, " + IntToString(framesize) ]
  }

  function EpilogueLines(framesize: int): seq<string>
  {
    [ "\tld ra, " + IntToString(framesize - 8) + "(sp)",
      "\tld fp, " + IntToString(framesize - 16) + "(sp)",
      "\taddi sp, sp, " + IntToString(framesize) ]
  }

  function FooterLines(name: string): seq<string>
  {
    ["\t.size " + name + ", .-" + name]
  }

  /** What the prologue does: open a frame of `framesize` bytes, save the return address
      and the caller's frame pointer at its top, and point the frame pointer above it. */
  function PrologInstrs(framesize: int): seq<Instr>
  {
    [Addi(sp, sp, -framesize), Sd(ra, framesize - 8, sp), Sd(fp, framesize - 16, sp), Addi(fp, sp, framesize)]
  }

  /** What the epilogue does: reload the return address and frame pointer from the slots
      the prologue used and release the frame. There is no return instruction. */
  function EpilogueInstrs(framesize: int): seq<Instr>
  {
    [Ld(ra, framesize - 8, sp), Ld(fp, framesize - 16, sp), Addi(sp, sp, framesize)]
  }

  /** `addi rd, rs, <imm text>` decodes to the `addi` whose immediate the text spells. */
  lemma AddiDecodes(rd: Reg, rs: Reg, immText: string, imm: int)
    requires ParseInt(immText) == Some(imm)
    ensures Decode("\taddi " + (Name(rd) + ", " + (Name(rs) + ", " + immText))) == Some(Addi(rd, rs, imm))
  {
    var line := "\taddi " + (Name(rd) + ", " + (Name(rs) + ", " + immText));
    assert !("\tli " <= line) && !("\tmv " <= line) by {
      assert line[1] == 'a';
    }
    assert "\taddi " <= line && line[6..] == Name(rd) + ", " + (Name(rs) + ", " + immText);
    RegThenCommaOf(rd, Name(rs) + ", " + immText);
    RegThenCommaOf(rs, immText);
  }

  /** A line `addi rd, rs, <sign><digits>` decodes to the `addi` whose immediate the text
      spells. `head` is the literal text before the digits, as the source writes it. */
  lemma AddiLine(head: string, rd: Reg, rs: Reg, sign: string, immText: string, imm: int)
    requires head == "\taddi " + (Name(rd) + ", " + (Name(rs) + ", " + sign))
    requires ParseInt(sign + immText) == Some(imm)
    ensures Decode(head + immText) == Some(Addi(rd, rs, imm))
  {
    var b, c := Name(rd) + ", ", Name(rs) + ", ";
    AppendAssoc("\taddi ", b + (c + sign), immText);
    AppendAssoc(b, c + sign, immText);
    AppendAssoc(c, sign, immText);
    AddiDecodes(rd, rs, sign + immText, imm);
  }

  /** `sd reg, <offset>(base)` decodes to the store of `reg` into that slot. */
  lemma SdDecodes(r: Reg, off: int, base: Reg)
    ensures Decode("\tsd " + (Name(r) + ", " + (IntToString(off) + ("(" + Name(base) + ")"))))
            == Some(Sd(r, off, base))
  {
    var memText := IntToString(off) + ("(" + Name(base) + ")");
    var line := "\tsd " + (Name(r) + ", " + memText);
    assert !("\tli " <= line) && !("\tmv " <= line) && !("\taddi " <= line) by {
      assert line[1] == 's';
    }
    assert "\tsd " <= line && line[4..] == Name(r) + ", " + memText;
    RegThenCommaOf(r, memText);
    MemOperandOf(off, base);
  }

  /** A line `sd reg, <offset>(base)`, with the literal text around the offset as the
      source writes it, decodes to the store of `reg` into that slot. */
  lemma StoreLine(head: string, r: Reg, off: int, tail: string, base: Reg)
    requires head == "\tsd " + (Name(r) + ", ") && tail == "(" + Name(base) + ")"
    ensures Decode(head + IntToString(off) + tail) == Some(Sd(r, off, base))
  {
    AppendAssoc(head, IntToString(off), tail);
    AppendAssoc("\tsd ", Name(r) + ", ", IntToString(off) + tail);
    SdDecodes(r, off, base);
  }

  /** `ld reg, <offset>(base)` decodes to the load of `reg` from that slot. */
  lemma LdDecodes(r: Reg, off: int, base: Reg)
    ensures Decode("\tld " + (Name(r) + ", " + (IntToString(off) + ("(" + Name(base) + ")"))))
            == Some(Ld(r, off, base))
  {
    var memText := IntToString(off) + ("(" + Name(base) + ")");
    var line := "\tld " + (Name(r) + ", " + memText);
    assert !("\tli " <= line) && !("\tmv " <= line) && !("\taddi " <= line) && !("\tsd " <= line) by {
      assert line[1] == 'l' && line[2] == 'd';
    }
    assert "\tld " <= line && line[4..] == Name(r) + ", " + memText;
    RegThenCommaOf(r, memText);
    MemOperandOf(off, base);
  }

  /** A line `ld reg, <offset>(base)`, with the literal text around the offset as the
      source writes it, decodes to the load of `reg` from that slot. */
  lemma LoadLine(head: string, r: Reg, off: int, tail: string, base: Reg)
    requires head == "\tld " + (Name(r) + ", ") && tail == "(" + Name(base) + ")"
    ensures Decode(head + IntToString(off) + tail) == Some(Ld(r, off, base))
  {
    AppendAssoc(head, IntToString(off), tail);
    AppendAssoc("\tld ", Name(r) + ", ", IntToString(off) + tail);
    LdDecodes(r, off, base);
  }

  /** The register operands the prologue and epilogue spell out are the names of
      `sp`, `ra` and `fp`. */
  lemma FrameLineHeads()
    ensures "\taddi sp, sp, -" == "\taddi " + (Name(sp) + ", " + (Name(sp) + ", " + "-"))
    ensures "\taddi sp, sp, " == "\taddi " + (Name(sp) + ", " + (Name(sp) + ", " + ""))
    ensures "\taddi fp, sp, " == "\taddi " + (Name(fp) + ", " + (Name(sp) + ", " + ""))
    ensures "\tsd ra, " == "\tsd " + (Name(ra) + ", ") && "\tsd fp, " == "\tsd " + (Name(fp) + ", ")
    ensures "\tld ra, " == "\tld " + (Name(ra) + ", ") && "\tld fp, " == "\tld " + (Name(fp) + ", ")
    ensures "(sp)" == "(" + Name(sp) + ")"
  {
  }

  /** The first prologue line, `addi sp, sp, -<framesize>`, lowers the stack pointer. */
  lemma PrologOpens(n: int)
    requires n >= 0
    ensures Decode("\taddi sp, sp, -" + IntToString(n)) == Some(Addi(sp, sp, -n))
  {
    FrameLineHeads();
    ParseNatToString(n);
    assert ParseInt("-" + IntToString(n)) == Some(-n) by {
      assert ("-" + IntToString(n))[1..] == NatToString(n);
    }
    AddiLine("\taddi sp, sp, -", sp, sp, "-", IntToString(n), -n);
  }

  /** For a non-negative frame size the prologue text is exactly the prologue instructions.
      (A negative size would print `--k`, which is not an immediate.) */
  lemma PrologMeans(framesize: int)
    requires framesize >= 0
    ensures DecodeAll(PrologLines(framesize)) == Some(PrologInstrs(framesize))
  {
    var n := framesize;
    FrameLineHeads();
    PrologOpens(n);
    StoreLine("\tsd ra, ", ra, n - 8, "(sp)", sp);
    StoreLine("\tsd fp, ", fp, n - 16, "(sp)", sp);
    ParseIntToString(n);
    assert "" + IntToString(n) == IntToString(n);
    AddiLine("\taddi fp, sp, ", fp, sp, "", IntToString(n), n);
    DecodeAllOfEach(PrologLines(n), PrologInstrs(n));
  }

  /** The epilogue text is exactly the epilogue instructions, for every frame size. */
  lemma EpilogueMeans(framesize: int)
    ensures DecodeAll(EpilogueLines(framesize)) == Some(EpilogueInstrs(framesize))
  {
    var n := framesize;
    FrameLineHeads();
    LoadLine("\tld ra, ", ra, n - 8, "(sp)", sp);
    LoadLine("\tld fp, ", fp, n - 16, "(sp)", sp);
    ParseIntToString(n);
    assert "" + IntToString(n) == IntToString(n);
    AddiLine("\taddi sp, sp, ", sp, sp, "", IntToString(n), n);
    DecodeAllOfEach(EpilogueLines(n), EpilogueInstrs(n));
  }

  /** After the prologue the stack pointer is `framesize` lower, the frame pointer holds the
      caller's stack pointer, no other register has changed, and the return address and the
      caller's frame pointer sit in the two doublewords just below the caller's stack pointer. */
  lemma PrologSavesFrame(m: Machine, framesize: int)
    requires WellFormed(m)
    ensures Run(m, PrologInstrs(framesize)).Some?
    ensures var m' := Run(m, PrologInstrs(framesize)).value;
            m'.x == m.x[Ordinal(sp) := Read(m, sp) - framesize][Ordinal(fp) := Read(m, sp)] &&
            Read(m', sp) == Read(m, sp) - framesize && Read(m', fp) == Read(m, sp) &&
            Read(m, sp) - 8 in m'.mem && m'.mem[Read(m, sp) - 8] == Read(m, ra) &&
            Read(m, sp) - 16 in m'.mem && m'.mem[Read(m, sp) - 16] == Read(m, fp)
  {
    var n, s := framesize, Read(m, sp);
    var prog := PrologInstrs(n);
    var m1 := Write(m, sp, s - n);
    var m2 := m1.(mem := m1.mem[s - 8 := Read(m, ra)]);
    var m3 := m2.(mem := m2.mem[s - 16 := Read(m, fp)]);
    var m4 := Write(m3, fp, s);
    assert Step(m, prog[0]) == Some(m1);
    assert Step(m1, prog[1]) == Some(m2);
    assert Step(m2, prog[2]) == Some(m3);
    assert Step(m3, prog[3]) == Some(m4);
    assert prog[1..][1..][1..][1..] == [];
    assert Run(m3, prog[1..][1..][1..]) == Some(m4);
    assert Run(m2, prog[1..][1..]) == Some(m4);
    assert Run(m1, prog[1..]) == Some(m4);
    assert Run(m, prog) == Some(m4);
  }

  /** The epilogue undoes the prologue: the decrement and the increment of the stack pointer
      cancel and the return address and frame pointer are reloaded from the slots the
      prologue saved them to, so every register is back to its value before the prologue. */
  lemma EpilogueRestores(m: Machine, framesize: int)
    requires WellFormed(m)
    ensures Run(m, PrologInstrs(framesize) + EpilogueInstrs(framesize)).Some?
    ensures Run(m, PrologInstrs(framesize) + EpilogueInstrs(framesize)).value.x == m.x
  {
    var n, s := framesize, Read(m, sp);
    RunAppend(m, PrologInstrs(n), EpilogueInstrs(n));
    PrologSavesFrame(m, n);
    var m4 := Run(m, PrologInstrs(n)).value;
    var prog := EpilogueInstrs(n);
    var m5 := Write(m4, ra, Read(m, ra));
    var m6 := Write(m5, fp, Read(m, fp));
    var m7 := Write(m6, sp, s);
    assert Step(m4, prog[0]) == Some(m5);
    assert Step(m5, prog[1]) == Some(m6);
    assert Step(m6, prog[2]) == Some(m7);
    assert prog[1..][1..][1..] == [];
    assert Run(m6, prog[1..][1..]) == Some(m7);
    assert Run(m5, prog[1..]) == Some(m7);
    assert Run(m4, prog) == Some(m7);
    assert m7.x == m.x[2 := s - n][8 := s][1 := m.x[1]][8 := m.x[8]][2 := s];
  }

  /** `function_header(out, name)`. */
  method FunctionHeader(out: Output, name: string)
    modifies out
    ensures out.lines == old(out.lines) + HeaderLines(name)
  {
    out.Writeln("\t.align 1");
    out.Writeln("\t.globl " + name);
    out.Writeln("\t.type " + name + ", @function");
  }

  /** `function_prolog(out, framesize)`. */
  method FunctionProlog(out: Output, framesize: int)
    modifies out
    ensures out.lines == old(out.lines) + PrologLines(framesize)
  {
    out.Writeln("\taddi sp, sp, -" + IntToString(framesize));
    out.Writeln("\tsd ra, " + IntToString(framesize - 8) + "(sp)");
    out.Writeln("\tsd fp, " + IntToString(framesize - 16) + "(sp)");
    out.Writeln("\taddi fp, sp, " + IntToString(framesize));
  }

  /** `function_epilogue(out, framesize)`. */
  method FunctionEpilogue(out: Output, framesize: int)
    modifies out
    ensures out.lines == old(out.lines) + EpilogueLines(framesize)
  {
    out.Writeln("\tld ra, " + IntToString(framesize - 8) + "(sp)");
    out.Writeln("\tld fp, " + IntToString(framesize - 16) + "(sp)");
    out.Writeln("\taddi sp, sp, " + IntToString(framesize));
  }

  /** `function_footer(out, name)`. */
  method FunctionFooter(out: Output, name: string)
    modifies out
    ensures out.lines == old(out.lines) + FooterLines(name)
  {
    out.Writeln("\t.size " + name + ", .-" + name);
  }
}
