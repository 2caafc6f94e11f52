/** The 32 integer registers of RISC-V under their calling-convention (ABI)
    names, and the three classes the allocator hands out. */
module Registers {
  import opened Wrappers

  const NumRegs: nat := 32

  /** The registers, declared in ordinal order: `zero` is x0, ..., `t6` is x31.
      `fp` is x8, which the convention also calls `s0`. */
  datatype Reg =
    | zero | ra | sp | gp | tp | t0 | t1 | t2
    | fp | s1 | a0 | a1 | a2 | a3 | a4 | a5
    | a6 | a7 | s2 | s3 | s4 | s5 | s6 | s7
    | s8 | s9 | s10 | s11 | t3 | t4 | t5 | t6

  /** The register with a given ordinal. */
  function FromOrdinal(i: nat): Reg
    requires i < NumRegs
  {
    match i
    case 0 => zero   case 1 => ra     case 2 => sp     case 3 => gp
    case 4 => tp     case 5 => t0     case 6 => t1     case 7 => t2
    case 8 => fp     case 9 => s1     case 10 => a0    case 11 => a1
    case 12 => a2    case 13 => a3    case 14 => a4    case 15 => a5
    case 16 => a6    case 17 => a7    case 18 => s2    case 19 => s3
    case 20 => s4    case 21 => s5    case 22 => s6    case 23 => s7
    case 24 => s8    case 25 => s9    case 26 => s10   case 27 => s11
    case 28 => t3    case 29 => t4    case 30 => t5    case 31 => t6
    case _ => t6
  }

  /** The enumeration value of a register: its hardware number, which is also
      its index in the allocator's availability table. */
  function Ordinal(r: Reg): (n: nat)
    ensures n < NumRegs
  {
    match r
    case zero => 0  case ra => 1   case sp => 2   case gp => 3
    case tp => 4    case t0 => 5   case t1 => 6   case t2 => 7
    case fp => 8    case s1 => 9   case a0 => 10  case a1 => 11
    case a2 => 12   case a3 => 13  case a4 => 14  case a5 => 15
    case a6 => 16   case a7 => 17  case s2 => 18  case s3 => 19
    case s4 => 20   case s5 => 21  case s6 => 22  case s7 => 23
    case s8 => 24   case s9 => 25  case s10 => 26 case s11 => 27
    case t3 => 28   case t4 => 29  case t5 => 30  case t6 => 31
  }

  /** The enumeration member name, which is what the emitted assembly spells. */
  function Name(r: Reg): (s: string)
    ensures |s| > 0
    ensures forall k :: 0 <= k < |s| ==> 'a' <= s[k] <= 'z' || '0' <= s[k] <= '9'
  {
    match r
    case zero => "zero" case ra => "ra"   case sp => "sp"   case gp => "gp"
    case tp => "tp"     case t0 => "t0"   case t1 => "t1"   case t2 => "t2"
    case fp => "fp"     case s1 => "s1"   case a0 => "a0"   case a1 => "a1"
    case a2 => "a2"     case a3 => "a3"   case a4 => "a4"   case a5 => "a5"
    case a6 => "a6"     case a7 => "a7"   case s2 => "s2"   case s3 => "s3"
    case s4 => "s4"     case s5 => "s5"   case s6 => "s6"   case s7 => "s7"
    case s8 => "s8"     case s9 => "s9"   case s10 => "s10" case s11 => "s11"
    case t3 => "t3"     case t4 => "t4"   case t5 => "t5"   case t6 => "t6"
  }

  /** The register an assembly operand names, if it names one. */
  function RegFromName(s: string): Option<Reg>
  {
    match s
    case "zero" => Some(zero) case "ra" => Some(ra)   case "sp" => Some(sp)   case "gp" => Some(gp)
    case "tp" => Some(tp)     case "t0" => Some(t0)   case "t1" => Some(t1)   case "t2" => Some(t2)
    case "fp" => Some(fp)     case "s1" => Some(s1)   case "a0" => Some(a0)   case "a1" => Some(a1)
    case "a2" => Some(a2)     case "a3" => Some(a3)   case "a4" => Some(a4)   case "a5" => Some(a5)
    case "a6" => Some(a6)     case "a7" => Some(a7)   case "s2" => Some(s2)   case "s3" => Some(s3)
    case "s4" => Some(s4)     case "s5" => Some(s5)   case "s6" => Some(s6)   case "s7" => Some(s7)
    case "s8" => Some(s8)     case "s9" => Some(s9)   case "s10" => Some(s10) case "s11" => Some(s11)
    case "t3" => Some(t3)     case "t4" => Some(t4)   case "t5" => Some(t5)   case "t6" => Some(t6)
    case _ => None
  }

  /** A register's name reads back as that register, so no two registers share a name. */
  lemma NameRoundTrip(r: Reg)
    ensures RegFromName(Name(r)) == Some(r)
  {
  }

  /** The ordinals are pairwise distinct: each register owns its own slot of the
      availability table. */
  lemma OrdinalInjective(r: Reg, q: Reg)
    ensures Ordinal(r) == Ordinal(q) ==> r == q
  {
    FromOrdinalOfOrdinal(r);
    FromOrdinalOfOrdinal(q);
  }

  /** `FromOrdinal` undoes `Ordinal`. */
  lemma FromOrdinalOfOrdinal(r: Reg)
    ensures FromOrdinal(Ordinal(r)) == r
  {
    match r
    case zero => case ra => case sp => case gp => case tp => case t0 => case t1 => case t2 =>
    case fp => case s1 => case a0 => case a1 => case a2 => case a3 => case a4 => case a5 =>
    case a6 => case a7 => case s2 => case s3 => case s4 => case s5 => case s6 => case s7 =>
    case s8 => case s9 => case s10 => case s11 => case t3 => case t4 => case t5 => case t6 =>
  }

  /** The ordinals cover 0..31 exactly: slot `i` of the table belongs to the register
      whose ordinal is `i`. */
  lemma OrdinalOfIndex(i: nat)
    requires i < NumRegs
    ensures Ordinal(FromOrdinal(i)) == i
  {
    if i < 16 {
      OrdinalOfLowIndex(i);
    } else {
      OrdinalOfHighIndex(i);
    }
  }

  lemma OrdinalOfLowIndex(i: nat)
    requires i < 16
    ensures Ordinal(FromOrdinal(i)) == i
  {
    match i
    case 0 => case 1 => case 2 => case 3 => case 4 => case 5 => case 6 => case 7 =>
    case 8 => case 9 => case 10 => case 11 => case 12 => case 13 => case 14 => case 15 =>
  }

  lemma OrdinalOfHighIndex(i: nat)
    requires 16 <= i < NumRegs
    ensures Ordinal(FromOrdinal(i)) == i
  {
    match i
    case 16 => case 17 => case 18 => case 19 => case 20 => case 21 => case 22 => case 23 =>
    case 24 => case 25 => case 26 => case 27 => case 28 => case 29 => case 30 => case 31 =>
  }

  /** The allocation classes. */
  datatype RegType = TempRegs | SavedRegs | ArgRegs

  /** The members of a class in declared order, which is the order the allocator tries them. */
  function Members(c: RegType): (rs: seq<Reg>)
    ensures |rs| == (if c == SavedRegs then 11 else 7)
  {
    match c
    case TempRegs => [t0, t1, t2, t3, t4, t5, t6]
    case SavedRegs => [s1, s2, s3, s4, s5, s6, s7, s8, s9, s10, s11]
    case ArgRegs => [a1, a2, a3, a4, a5, a6, a7]
  }

  /** No register is listed twice in a class, so the allocator never hands the same
      register out twice from one class. */
  lemma MembersDistinct(c: RegType, i: nat, j: nat)
    requires i < j < |Members(c)|
    ensures Members(c)[i] != Members(c)[j]
  {
    MembersClassified(c, i);
    MembersClassified(c, j);
  }

  /** The registers reserved outside every class: the hard-wired zero, the return
      address, stack, global and thread pointers, the frame pointer (s0) and the
      return-value register a0. */
  predicate Reserved(r: Reg) {
    r == zero || r == ra || r == sp || r == gp || r == tp || r == fp || r == a0
  }

  /** The class a register belongs to, if any; the exact inverse of `Members`. */
  function ClassOf(r: Reg): (c: Option<RegType>)
  {
    match r
    case t0 | t1 | t2 | t3 | t4 | t5 | t6 => Some(TempRegs)
    case s1 | s2 | s3 | s4 | s5 | s6 | s7 | s8 | s9 | s10 | s11 => Some(SavedRegs)
    case a1 | a2 | a3 | a4 | a5 | a6 | a7 => Some(ArgRegs)
    case _ => None
  }

  /** Where a classified register sits in its class's member list. */
  function Position(r: Reg): nat
  {
    match r
    case t0 => 0 case t1 => 1 case t2 => 2 case t3 => 3 case t4 => 4 case t5 => 5 case t6 => 6
    case s1 => 0 case s2 => 1 case s3 => 2 case s4 => 3 case s5 => 4 case s6 => 5
    case s7 => 6 case s8 => 7 case s9 => 8 case s10 => 9 case s11 => 10
    case a1 => 0 case a2 => 1 case a3 => 2 case a4 => 3 case a5 => 4 case a6 => 5 case a7 => 6
    case _ => 0
  }

  /** Every member of a class is classified under that class, at its own position. */
  lemma MembersClassified(c: RegType, i: nat)
    requires i < |Members(c)|
    ensures ClassOf(Members(c)[i]) == Some(c) && Position(Members(c)[i]) == i
  {
    match c
    case TempRegs => TempsClassified(i);
    case SavedRegs => SavedClassified(i);
    case ArgRegs => ArgsClassified(i);
  }

  lemma TempsClassified(i: nat)
    requires i < 7
    ensures ClassOf(Members(TempRegs)[i]) == Some(TempRegs) && Position(Members(TempRegs)[i]) == i
  {
    var rs := Members(TempRegs);
    assert rs == [t0, t1, t2, t3, t4, t5, t6];
  }

  lemma SavedClassified(i: nat)
    requires i < 11
    ensures ClassOf(Members(SavedRegs)[i]) == Some(SavedRegs) && Position(Members(SavedRegs)[i]) == i
  {
    var rs := Members(SavedRegs);
    assert rs == [s1, s2, s3, s4, s5, s6, s7, s8, s9, s10, s11];
  }

  lemma ArgsClassified(i: nat)
    requires i < 7
    ensures ClassOf(Members(ArgRegs)[i]) == Some(ArgRegs) && Position(Members(ArgRegs)[i]) == i
  {
    var rs := Members(ArgRegs);
    assert rs == [a1, a2, a3, a4, a5, a6, a7];
  }

  /** Every classified register is listed in its class, at its position. */
  lemma ClassifiedAreMembers(r: Reg)
    requires ClassOf(r).Some?
    ensures Position(r) < |Members(ClassOf(r).value)| && Members(ClassOf(r).value)[Position(r)] == r
  {
  }

  /** A class member is classified under its own class and no other. */
  lemma ClassOfMembers(r: Reg, c: RegType)
    ensures r in Members(c) <==> ClassOf(r) == Some(c)
  {
    if r in Members(c) {
      var i :| 0 <= i < |Members(c)| && Members(c)[i] == r;
      MembersClassified(c, i);
    }
    if ClassOf(r) == Some(c) {
      ClassifiedAreMembers(r);
    }
  }

  /** No register is in two classes, and no reserved register is in any class. */
  lemma ClassesDisjoint(c: RegType, d: RegType, r: Reg)
    ensures r in Members(c) && r in Members(d) ==> c == d
    ensures Reserved(r) ==> r !in Members(c)
  {
    ClassOfMembers(r, c);
    ClassOfMembers(r, d);
    UnclassifiedAreReserved(r);
  }

  /** The registers outside every class are exactly the reserved ones, so the three
      classes and the reserved registers partition the register file (7 + 11 + 7 + 7 = 32). */
  lemma UnclassifiedAreReserved(r: Reg)
    ensures ClassOf(r) == None <==> Reserved(r)
  {
  }
}
