/** The allocator's availability table: one flag per register, `true` while the
    register is free. Allocation is first-fit over a class in declared order. */
module RegisterPool {
  import opened Wrappers
  import opened Registers

  /** The position in `regs` of the first register whose flag in `avail` is set, if any. */
  function FirstFree(avail: seq<bool>, regs: seq<Reg>): (k: Option<nat>)
    requires |avail| == NumRegs
    ensures k.Some? ==> k.value < |regs| && avail[Ordinal(regs[k.value])]
    ensures k.Some? ==> forall j :: 0 <= j < k.value ==> !avail[Ordinal(regs[j])]
    ensures k.None? <==> forall j :: 0 <= j < |regs| ==> !avail[Ordinal(regs[j])]
    decreases |regs|
  {
    if |regs| == 0 then None
    else if avail[Ordinal(regs[0])] then Some(0)
    else match FirstFree(avail, regs[1..])
      case None => None
      case Some(k) => Some(k + 1)
  }

  /** The first register flagged free is found at its own position. */
  lemma FirstFreeAt(avail: seq<bool>, regs: seq<Reg>, i: nat)
    requires |avail| == NumRegs && i < |regs| && avail[Ordinal(regs[i])]
    requires forall j :: 0 <= j < i ==> !avail[Ordinal(regs[j])]
    ensures FirstFree(avail, regs) == Some(i)
  {
  }

  /** The register `get_next_reg` hands out for class `c` given the table `avail`. */
  function NextFree(avail: seq<bool>, c: RegType): (r: Option<Reg>)
    requires |avail| == NumRegs
    ensures r.Some? ==> r.value in Members(c) && avail[Ordinal(r.value)]
    ensures r.None? <==> forall m :: m in Members(c) ==> !avail[Ordinal(m)]
  {
    match FirstFree(avail, Members(c))
    case None => None
    case Some(k) => Some(Members(c)[k])
  }

  /** First fit: when some member of the class is free, a register is handed out, and it
      sits no later in the class's list than any free member. */
  lemma NextFreeIsFirst(avail: seq<bool>, c: RegType, i: nat)
    requires |avail| == NumRegs
    requires i < |Members(c)| && avail[Ordinal(Members(c)[i])]
    ensures NextFree(avail, c).Some?
    ensures forall j :: 0 <= j < |Members(c)| && Members(c)[j] == NextFree(avail, c).value ==> j <= i
  {
    var regs := Members(c);
    var k := FirstFree(avail, regs).value;
    forall j | 0 <= j < |regs| && regs[j] == NextFree(avail, c).value
      ensures j <= i
    {
      if k < j {
        MembersDistinct(c, k, j);
      }
    }
  }

  /** Freeing the register just handed out gives back the table as it was before. */
  lemma RestoreUndoesNext(avail: seq<bool>, c: RegType)
    requires |avail| == NumRegs
    requires NextFree(avail, c).Some?
    ensures avail[Ordinal(NextFree(avail, c).value) := false][Ordinal(NextFree(avail, c).value) := true] == avail
  {
    var o := Ordinal(NextFree(avail, c).value);
    assert avail[o];
  }

  /** Freeing and taking are idempotent: doing either twice is doing it once. */
  lemma SetIdempotent(avail: seq<bool>, r: Reg, b: bool)
    requires |avail| == NumRegs
    ensures avail[Ordinal(r) := b][Ordinal(r) := b] == avail[Ordinal(r) := b]
  {
  }

  predicate StrictlyIncreasing(s: seq<nat>) {
    forall i, j :: 0 <= i < j < |s| ==> s[i] < s[j]
  }

  /** Two strictly increasing lists with the same elements are the same list, so the
      contract of `IdxOfRegsInUse` fixes its result completely. */
  lemma {:induction false} IncreasingUnique(p: seq<nat>, q: seq<nat>)
    requires StrictlyIncreasing(p) && StrictlyIncreasing(q)
    requires forall x :: x in p <==> x in q
    ensures p == q
    decreases |p|
  {
    assert |p| > 0 ==> p[0] in q;
    assert |q| > 0 ==> q[0] in p;
    if |p| > 0 {
      assert p[0] == q[0] by {
        var i :| 0 <= i < |q| && q[i] == p[0];
        var j :| 0 <= j < |p| && p[j] == q[0];
        assert q[0] <= q[i] && p[0] <= p[j];
      }
      forall x
        ensures x in p[1..] <==> x in q[1..]
      {
        if x in p[1..] {
          var i :| 1 <= i < |p| && p[i] == x;
          assert x in q && x != q[0];
        }
        if x in q[1..] {
          var i :| 1 <= i < |q| && q[i] == x;
          assert x in p && x != p[0];
        }
      }
      IncreasingUnique(p[1..], q[1..]);
      assert p == [p[0]] + p[1..] && q == [q[0]] + q[1..];
    }
  }

  class RegPool {
    /** `available[i]` holds while the register with ordinal `i` may be handed out. */
    var available: array<bool>

    ghost predicate Valid()
      reads this
    {
      available.Length == NumRegs
    }

    /** A fresh pool, as `reset` leaves it. */
    constructor ()
      ensures Valid() && fresh(available)
      ensures forall i :: 0 <= i < NumRegs ==> available[i]
    {
      available := new bool[NumRegs](_ => true);
    }

    /** Marks every register available again, on a new table. */
    method Reset()
      modifies this
      ensures Valid() && fresh(available)
      ensures forall i :: 0 <= i < NumRegs ==> available[i]
    {
      available := new bool[NumRegs](_ => true);
    }

    /** Takes the first available member of class `c`, in declared order, or reports
        that the class is exhausted and leaves the table alone. */
    method GetNextReg(c: RegType) returns (r: Option<Reg>)
      requires Valid()
      modifies available
      ensures Valid()
      ensures r == NextFree(old(available[..]), c)
      ensures r.Some? ==> available[..] == old(available[..])[Ordinal(r.value) := false]
      ensures r.None? ==> available[..] == old(available[..])
    {
      var regs := Members(c);
      var i := 0;
      while i < |regs| && !available[Ordinal(regs[i])]
        invariant 0 <= i <= |regs|
        invariant forall j :: 0 <= j < i ==> !available[Ordinal(regs[j])]
      {
        i := i + 1;
      }
      if i < |regs| {
        FirstFreeAt(available[..], regs, i);
        available[Ordinal(regs[i])] := false;
        r := Some(regs[i]);
      } else {
        r := None;
      }
    }

    /** Makes `reg` available again; every other entry is untouched. */
    method RestoreReg(reg: Reg)
      requires Valid()
      modifies available
      ensures Valid()
      ensures available[..] == old(available[..])[Ordinal(reg) := true]
    {
      available[Ordinal(reg)] := true;
    }

    /** Makes `reg` unavailable whatever its state; every other entry is untouched. */
    method TakeReg(reg: Reg)
      requires Valid()
      modifies available
      ensures Valid()
      ensures available[..] == old(available[..])[Ordinal(reg) := false]
    {
      available[Ordinal(reg)] := false;
    }

    /** The ordinals of the registers in use, in ascending order. */
    method IdxOfRegsInUse() returns (idxs: seq<nat>)
      requires Valid()
      ensures forall k: nat :: k in idxs <==> k < NumRegs && !available[k]
      ensures StrictlyIncreasing(idxs)
    {
      idxs := [];
      var i := 0;
      while i < available.Length
        invariant 0 <= i <= available.Length
        invariant forall k: nat :: k in idxs <==> k < i && !available[k]
        invariant forall j :: 0 <= j < |idxs| ==> idxs[j] < i
        invariant StrictlyIncreasing(idxs)
      {
        if !available[i] {
          idxs := idxs + [i];
        }
        i := i + 1;
      }
    }
  }

  /** The slots of the registers the demonstration allocates. */
  lemma DemoOrdinals()
    ensures Ordinal(t0) == 5 && Ordinal(t1) == 6 && Ordinal(a1) == 11
  {
  }

  /** With x5 free the first temporary handed out is t0. */
  lemma FirstTempIsT0(avail: seq<bool>)
    requires |avail| == NumRegs && avail[5]
    ensures NextFree(avail, TempRegs) == Some(t0)
  {
    assert Ordinal(Members(TempRegs)[0]) == 5;
    assert FirstFree(avail, Members(TempRegs)) == Some(0);
  }

  /** With x5 taken and x6 free the next temporary handed out is t1. */
  lemma SecondTempIsT1(avail: seq<bool>)
    requires |avail| == NumRegs && !avail[5] && avail[6]
    ensures NextFree(avail, TempRegs) == Some(t1)
  {
    var regs := Members(TempRegs);
    assert Ordinal(regs[0]) == 5 && Ordinal(regs[1]) == 6;
    assert FirstFree(avail, regs[1..]) == Some(0);
    assert FirstFree(avail, regs) == Some(1);
  }

  /** With x11 free the first argument register handed out is a1. */
  lemma FirstArgIsA1(avail: seq<bool>)
    requires |avail| == NumRegs && avail[11]
    ensures NextFree(avail, ArgRegs) == Some(a1)
  {
    assert Ordinal(Members(ArgRegs)[0]) == 11;
    assert FirstFree(avail, Members(ArgRegs)) == Some(0);
  }

  /** After the demonstration's allocations the in-use list can only be slots 5, 6 and 11. */
  lemma DemoInUse(t: seq<bool>, inUse: seq<nat>)
    requires |t| == NumRegs
    requires forall i :: 0 <= i < NumRegs ==> (t[i] <==> i != 5 && i != 6 && i != 11)
    requires StrictlyIncreasing(inUse)
    requires forall k: nat :: k in inUse <==> k < NumRegs && !t[k]
    ensures inUse == [5, 6, 11]
  {
    forall x: nat
      ensures x in inUse <==> x in [5, 6, 11]
    {
    }
    IncreasingUnique(inUse, [5, 6, 11]);
  }

  /** Taking slots 5, 6 and 11 of a table with every flag set leaves exactly those in use. */
  lemma ThreeTaken(s0: seq<bool>, t: seq<bool>)
    requires |s0| == NumRegs && forall i :: 0 <= i < NumRegs ==> s0[i]
    requires t == s0[5 := false][6 := false][11 := false]
    ensures forall i :: 0 <= i < NumRegs ==> (t[i] <==> i != 5 && i != 6 && i != 11)
  {
  }

  /** The three allocations of the demonstration, on a pool with every register free. */
  method DemoAllocate(pool: RegPool) returns (temp1: Option<Reg>, temp2: Option<Reg>, arg1: Option<Reg>)
    requires pool.Valid() && forall i :: 0 <= i < NumRegs ==> pool.available[i]
    modifies pool.available
    ensures pool.Valid()
    ensures temp1 == Some(t0) && temp2 == Some(t1) && arg1 == Some(a1)
    ensures forall i :: 0 <= i < NumRegs ==> (pool.available[i] <==> i != 5 && i != 6 && i != 11)
  {
    DemoOrdinals();
    ghost var s0 := pool.available[..];
    assert s0[5] && s0[6] && s0[11];
    FirstTempIsT0(s0);
    temp1 := pool.GetNextReg(TempRegs);
    ghost var s1 := pool.available[..];
    assert s1 == s0[5 := false];
    SecondTempIsT1(s1);
    temp2 := pool.GetNextReg(TempRegs);
    ghost var s2 := pool.available[..];
    assert s2 == s1[6 := false];
    FirstArgIsA1(s2);
    arg1 := pool.GetNextReg(ArgRegs);
    ghost var t := pool.available[..];
    assert t == s2[11 := false];
    ThreeTaken(s0, t);
  }

  /** The demonstration at the end of register_pool.py: on a fresh pool two temporaries
      come out as t0 and t1, an argument register as a1, and x5, x6 and x11 are in use. */
  method Demo() returns (temp1: Option<Reg>, temp2: Option<Reg>, arg1: Option<Reg>, inUse: seq<nat>)
    ensures temp1 == Some(t0) && temp2 == Some(t1) && arg1 == Some(a1)
    ensures inUse == [5, 6, 11]
  {
    var pool := new RegPool();
    temp1, temp2, arg1 := DemoAllocate(pool);
    ghost var t := pool.available[..];
    inUse := pool.IdxOfRegsInUse();
    forall k: nat
      ensures k in inUse <==> k < NumRegs && !t[k]
    {
      if k < NumRegs {
        assert pool.available[k] == t[k];
      }
    }
    DemoInUse(t, inUse);
  }
}
