/** The symbol table: for each frame (function) name, the symbols declared in it,
    in declaration order. */
module SymbolTables {
  import opened Wrappers
  import opened Symbols

  type Table = map<string, seq<Symbol>>

  datatype TableError =
    | FrameMissing(frame: string)                  // raised as RuntimeError
    | SymbolMissing(name: string, frame: string)   // raised as RuntimeWarning

  predicate Matches(s: Symbol, name: string, kind: SymbolKind) {
    s.name == name && s.Kind() == kind
  }

  /** The position of the first symbol in `syms` with this name and kind, if any. */
  function FirstMatch(syms: seq<Symbol>, name: string, kind: SymbolKind): (k: Option<nat>)
    ensures k.Some? ==> k.value < |syms| && Matches(syms[k.value], name, kind)
    ensures k.Some? ==> forall j :: 0 <= j < k.value ==> !Matches(syms[j], name, kind)
    ensures k.None? <==> forall j :: 0 <= j < |syms| ==> !Matches(syms[j], name, kind)
    decreases |syms|
  {
    if |syms| == 0 then None
    else if Matches(syms[0], name, kind) then Some(0)
    else match FirstMatch(syms[1..], name, kind)
      case None => None
      case Some(k) => Some(k + 1)
  }

  /** What `lookup_symbol` answers for `table`. */
  function Lookup(table: Table, name: string, frame: string, kind: SymbolKind): (r: Result<Symbol, TableError>)
    ensures frame !in table ==> r == Err(FrameMissing(frame))
    ensures r.Ok? ==> frame in table && r.value in table[frame] && Matches(r.value, name, kind)
    ensures r.Ok? ==>
              (frame in table &&
               exists k :: 0 <= k < |table[frame]| && table[frame][k] == r.value &&
                 forall j :: 0 <= j < k ==> !Matches(table[frame][j], name, kind))
    ensures r == Err(SymbolMissing(name, frame)) <==>
              frame in table && forall s :: s in table[frame] ==> !Matches(s, name, kind)
  {
    if frame !in table then Err(FrameMissing(frame))
    else match FirstMatch(table[frame], name, kind)
      case None => Err(SymbolMissing(name, frame))
      case Some(k) => Ok(table[frame][k])
  }

  /** What `add_symbol` makes of `table`. */
  function Added(table: Table, frame: string, s: Symbol): (t: Table)
    ensures t.Keys == table.Keys + {frame}
    ensures frame !in table ==> t[frame] == [s]
    ensures frame in table ==> t[frame] == table[frame] + [s]
    ensures forall f :: f in table && f != frame ==> t[f] == table[f]
  {
    table[frame := if frame in table then table[frame] + [s] else [s]]
  }

  /** Appending a symbol does not move the first match of a list that already had one,
      and makes the new symbol the first match of a list that had none. */
  lemma {:induction false} FirstMatchAppend(syms: seq<Symbol>, s: Symbol, name: string, kind: SymbolKind)
    ensures FirstMatch(syms + [s], name, kind) ==
              if FirstMatch(syms, name, kind).Some? then FirstMatch(syms, name, kind)
              else if Matches(s, name, kind) then Some(|syms|)
              else None
    decreases |syms|
  {
    if |syms| > 0 {
      assert (syms + [s])[1..] == syms[1..] + [s];
      FirstMatchAppend(syms[1..], s, name, kind);
    }
  }

  /** After `add_symbol(frame, s)`, looking `s` up by its own name and kind in that frame
      succeeds: it finds `s`, unless an earlier symbol of the same name and kind shadows it. */
  lemma AddThenLookup(table: Table, frame: string, s: Symbol)
    ensures Lookup(Added(table, frame, s), s.name, frame, s.Kind()) ==
              if frame in table && FirstMatch(table[frame], s.name, s.Kind()).Some?
              then Lookup(table, s.name, frame, s.Kind())
              else Ok(s)
  {
    var syms := if frame in table then table[frame] else [];
    FirstMatchAppend(syms, s, s.name, s.Kind());
    assert Added(table, frame, s)[frame] == syms + [s];
  }

  /** Adding to one frame changes no answer about any other frame. */
  lemma AddKeepsOtherFrames(table: Table, frame: string, s: Symbol, other: string, name: string, kind: SymbolKind)
    requires other != frame
    ensures Lookup(Added(table, frame, s), name, other, kind) == Lookup(table, name, other, kind)
  {
  }

  class SymbolTable {
    var table: Table

    /** A new table, as `reset` leaves it. */
    constructor ()
      ensures table == map[]
    {
      table := map[];
    }

    /** Forgets every frame. */
    method Reset()
      modifies this
      ensures table == map[]
    {
      table := map[];
    }

    /** Fails when the frame is unknown; otherwise scans the frame's symbols in order and
        returns the first with this name and kind, or fails when there is none. */
    method LookupSymbol(name: string, frame: string, kind: SymbolKind) returns (r: Result<Symbol, TableError>)
      ensures r == Lookup(table, name, frame, kind)
    {
      if frame !in table {
        return Err(FrameMissing(frame));
      }
      var syms := table[frame];
      var i := 0;
      while i < |syms|
        invariant 0 <= i <= |syms|
        invariant forall j :: 0 <= j < i ==> !Matches(syms[j], name, kind)
      {
        if syms[i].name == name && syms[i].Kind() == kind {
          return Ok(syms[i]);
        }
        i := i + 1;
      }
      return Err(SymbolMissing(name, frame));
    }

    /** Creates the frame with `s` as its only symbol, or appends `s` to the frame's list. */
    method AddSymbol(frame: string, s: Symbol)
      modifies this
      ensures table == Added(old(table), frame, s)
    {
      if frame !in table {
        table := table[frame := [s]];
      } else {
        table := table[frame := table[frame] + [s]];
      }
    }
  }
}
