/** The table of subroutines: DWARF ranges first, then the symbols of the ELF file that no range covers. */
module SymbolTable {
  import opened Common

  /** subroutine_t.  A `pcEnd` of zero means that only the first address is known. */
  datatype Subroutine = Subroutine(name: string, callsites: seq<nat>, pcEnd: nat, isFunction: bool)

  /** subroutine_map */
  type Table = map<nat, Subroutine>

  ghost predicate Covers(table: Table, key: nat, pc: nat) {
    key in table && key <= pc < table[key].pcEnd
  }

  /** Some range of the table covers the address. */
  ghost predicate Covered(table: Table, pc: nat) {
    exists key :: Covers(table, key, pc)
  }

  /** A range is not empty, and only ranges have call sites. */
  predicate Sound(key: nat, sub: Subroutine) {
    if sub.pcEnd == 0 then sub.callsites == [] else key < sub.pcEnd
  }

  /** Ranges reach no further than the next key. */
  ghost predicate Ranged(table: Table) {
    && (forall key <- table :: Sound(key, table[key]))
    && (forall key <- table, later <- table | key < later :: table[key].pcEnd <= later)
  }

  function At(table: Table, key: nat): Option<Subroutine> {
    if key in table then Some(table[key]) else None
  }

  // ----- lookups

  /** The key before upper_bound: the greatest one that is at most `pc`. */
  function Floor(table: Table, pc: int): (r: Option<nat>)
    ensures r.Some? ==> r.value in table && r.value <= pc && forall key <- table | key <= pc :: key <= r.value
    ensures r.None? ==> forall key <- table :: pc < key
    decreases if pc < 0 then 0 else pc + 1
  {
    if pc < 0 then None else if pc in table then Some(pc) else Floor(table, pc - 1)
  }

  /** subroutine_find, with the key of the subroutine. */
  function Find(table: Table, pc: nat): Option<nat> {
    match Floor(table, pc)
    case None => None
    case Some(key) => if table[key].pcEnd == 0 || pc < table[key].pcEnd then Some(key) else None
  }

  /** The lookup finds a range if and only if it covers the address. */
  lemma FindsCoveringRange(table: Table, key: nat, pc: nat)
    requires Ranged(table)
    ensures Covers(table, key, pc) <==> Find(table, pc) == Some(key) && table[key].pcEnd != 0
  {
  }

  // ----- DWARF

  /** The attributes of a subprogram entry that die_subprogram reads.  It is skipped without a name, a low
      or a high address; a high address of class "constant" is an offset from the low one (section 2.17.2
      of DWARF Version 4). */
  datatype Die = Die(name: Option<string>, low: Option<nat>, high: Option<nat>, highIsConstant: bool,
                     callsites: seq<nat>)
  {
    predicate Usable() { name.Some? && low.Some? && high.Some? }

    function End(): nat
      requires Usable()
    {
      if highIsConstant then (low.value + high.value) % U64 else high.value
    }

    function ToSubroutine(): Subroutine
      requires Usable()
    {
      Subroutine(name.value, callsites, End(), true)
    }
  }

  /** Usable entries have ranges that are not empty; two of them share the low address or do not meet. */
  ghost predicate Disjoint(dies: seq<Die>) {
    && (forall a <- dies | a.Usable() :: a.low.value < a.End())
    && (forall a <- dies, b <- dies | a.Usable() && b.Usable() && a.low.value < b.low.value :: a.End() <= b.low.value)
  }

  /** The first usable entry with this low address. */
  function FirstDie(dies: seq<Die>, key: nat): (r: Option<Die>)
    ensures r.Some? ==> r.value in dies && r.value.Usable() && r.value.low.value == key
  {
    if dies == [] then None
    else if dies[0].Usable() && dies[0].low.value == key then Some(dies[0])
    else FirstDie(dies[1..], key)
  }

  /** Each key has the first entry that claims it. */
  ghost predicate FromDies(dies: seq<Die>, table: Table) {
    forall key :: (key in table <==> FirstDie(dies, key).Some?)
               && (key in table ==> table[key] == FirstDie(dies, key).value.ToSubroutine())
  }

  /** Entry i has a name and both addresses, and no entry before it with all three has the same low address. */
  ghost predicate Claims(dies: seq<Die>, i: nat) {
    && i < |dies| && dies[i].name.Some? && dies[i].low.Some? && dies[i].high.Some?
    && forall j | 0 <= j < i && dies[j].name.Some? && dies[j].high.Some? :: dies[j].low != dies[i].low
  }

  /** The address is in its range.  A constant high address counts from the low one, in 64 bits; any other is
      the end itself. */
  ghost predicate InDie(dies: seq<Die>, i: nat, pc: nat) {
    && Claims(dies, i) && dies[i].low.value <= pc
    && (dies[i].highIsConstant ==> pc < (dies[i].low.value + dies[i].high.value) % 0x1_0000_0000_0000_0000)
    && (!dies[i].highIsConstant ==> pc < dies[i].high.value)
  }

  ghost predicate InAnyDie(dies: seq<Die>, pc: nat) { exists i: nat :: InDie(dies, i, pc) }

  /** The table has this entry as a function at its low address, with the end of its range. */
  ghost predicate HasDie(table: Table, d: Die)
    requires d.name.Some? && d.low.Some? && d.high.Some?
  {
    && d.low.value in table
    && var sub := table[d.low.value];
       && sub.name == d.name.value && sub.callsites == d.callsites && sub.isFunction
       && (d.highIsConstant ==> sub.pcEnd == (d.low.value + d.high.value) % 0x1_0000_0000_0000_0000)
       && (!d.highIsConstant ==> sub.pcEnd == d.high.value)
  }

  lemma {:induction false} FirstDieClaims(dies: seq<Die>, i: nat)
    requires Claims(dies, i)
    ensures FirstDie(dies, dies[i].low.value) == Some(dies[i])
    decreases |dies|
  {
    if i > 0 {
      assert Claims(dies[1..], i - 1);
      FirstDieClaims(dies[1..], i - 1);
    }
  }

  lemma {:induction false} FirstDieOf(dies: seq<Die>, key: nat) returns (i: nat)
    requires FirstDie(dies, key).Some?
    ensures Claims(dies, i) && dies[i].low == Some(key) && FirstDie(dies, key) == Some(dies[i])
    decreases |dies|
  {
    if dies[0].Usable() && dies[0].low.value == key {
      i := 0;
    } else {
      var k := FirstDieOf(dies[1..], key);
      i := k + 1;
    }
  }

  /** The table of the entries, in terms of the entries. */
  lemma DiesInTable(dies: seq<Die>, table: Table)
    requires FromDies(dies, table)
    ensures forall i: nat | Claims(dies, i) :: HasDie(table, dies[i])
    ensures forall key <- table :: exists i: nat :: Claims(dies, i) && dies[i].low == Some(key)
  {
    forall i: nat | Claims(dies, i) ensures HasDie(table, dies[i]) {
      FirstDieClaims(dies, i);
    }
    forall key <- table ensures exists i: nat :: Claims(dies, i) && dies[i].low == Some(key) {
      var i := FirstDieOf(dies, key);
    }
  }

  /** So a range of the table covers exactly the addresses of its entry. */
  lemma CoveredByDies(dies: seq<Die>, table: Table, pc: nat)
    requires FromDies(dies, table)
    ensures Covered(table, pc) <==> InAnyDie(dies, pc)
    ensures forall i: nat | InDie(dies, i, pc) :: Covers(table, dies[i].low.value, pc)
  {
    DiesInTable(dies, table);
    forall i: nat | InDie(dies, i, pc) ensures Covers(table, dies[i].low.value, pc) {
      assert HasDie(table, dies[i]);
    }
    if key: nat :| Covers(table, key, pc) {
      var i: nat :| Claims(dies, i) && dies[i].low == Some(key);
      assert HasDie(table, dies[i]) && InDie(dies, i, pc);
    }
  }

  lemma {:induction false} FirstDieSnoc(dies: seq<Die>, d: Die, key: nat)
    ensures FirstDie(dies + [d], key)
         == if FirstDie(dies, key).Some? then FirstDie(dies, key)
            else if d.Usable() && d.low.value == key then Some(d) else None
  {
    if dies == [] {
      assert [d][1..] == [];
    } else {
      FirstDieSnoc(dies[1..], d, key);
      assert (dies + [d])[1..] == dies[1..] + [d];
    }
  }

  lemma PlaceDie(dies: seq<Die>, d: Die, table: Table)
    requires FromDies(dies, table)
    ensures FromDies(dies + [d],
              if d.Usable() && d.low.value !in table then table[d.low.value := d.ToSubroutine()] else table)
  {
    forall key
      ensures FirstDie(dies + [d], key)
           == if FirstDie(dies, key).Some? then FirstDie(dies, key)
              else if d.Usable() && d.low.value == key then Some(d) else None
    {
      FirstDieSnoc(dies, d, key);
    }
  }

  /** die_subprogram, for the subprograms of all compilation units in order. */
  method SubroutinesOfDwarf(dies: seq<Die>) returns (table: Table)
    ensures FromDies(dies, table)
    ensures forall i: nat | Claims(dies, i) :: HasDie(table, dies[i])
    ensures forall key <- table :: exists i: nat :: Claims(dies, i) && dies[i].low == Some(key)
    ensures Disjoint(dies) ==> Ranged(table)
  {
    table := map[];
    for n := 0 to |dies|
      invariant FromDies(dies[..n], table)
    {
      var d := dies[n];
      PlaceDie(dies[..n], d, table);
      assert dies[..n + 1] == dies[..n] + [d];
      if d.Usable() && d.low.value !in table {
        table := table[d.low.value := d.ToSubroutine()];
      }
    }
    assert dies[..|dies|] == dies;
    DiesInTable(dies, table);
    if Disjoint(dies) {
      DiesAreRanged(dies, table);
    }
  }

  lemma DiesAreRanged(dies: seq<Die>, table: Table)
    requires FromDies(dies, table) && Disjoint(dies)
    ensures Ranged(table)
  {
    forall key <- table ensures Sound(key, table[key]) {
      assert FirstDie(dies, key).Some?;
    }
    forall key <- table, later <- table | key < later ensures table[key].pcEnd <= later {
      var a, b := FirstDie(dies, key).value, FirstDie(dies, later).value;
      assert a.low.value < b.low.value;
    }
  }

  // ----- ELF

  datatype Section = Section(addr: nat, size: nat, text: bool)
  {
    function End(): nat { (addr + size) % U64 }
  }

  /** The scan of the section headers: the lowest and the highest address of executable sections. */
  method TextBounds(sections: seq<Section>) returns (low: nat, high: nat)
    ensures forall s <- sections | s.text :: low <= s.addr && s.End() <= high
    ensures low == U64 - 1 || exists s <- sections :: s.text && s.addr == low
    ensures high == 0 || exists s <- sections :: s.text && s.End() == high
  {
    low, high := U64 - 1, 0;
    for n := 0 to |sections|
      invariant forall k | 0 <= k < n && sections[k].text :: low <= sections[k].addr && sections[k].End() <= high
      invariant low == U64 - 1 || exists s <- sections :: s.text && s.addr == low
      invariant high == 0 || exists s <- sections :: s.text && s.End() == high
    {
      var s := sections[n];
      if s.text {
        if s.addr < low {
          low := s.addr;
        }
        if s.End() > high {
          high := s.End();
        }
      }
    }
  }

  /** A symbol; `text` says that it is defined in an executable section. */
  datatype Symbol = Symbol(value: nat, name: string, isFunction: bool, text: bool)
  {
    predicate Usable() { text && name != "" }

    function ToSubroutine(): Subroutine { Subroutine(name, [], 0, isFunction) }
  }

  /** The symbol loop's test: the address is a key, or inside the range that starts at the key before. */
  predicate Taken(table: Table, value: nat) {
    match Floor(table, value)
    case None => false
    case Some(key) => value == key || value < table[key].pcEnd
  }

  lemma TakenMeans(table: Table, value: nat)
    requires Ranged(table)
    ensures Taken(table, value) <==> value in table || Covered(table, value)
  {
    if key :| Covers(table, key, value) {
      FindsCoveringRange(table, key, value);
    }
    if Taken(table, value) && value !in table {
      assert Covers(table, Floor(table, value).value, value);
    }
  }

  /** The first usable symbol with this value. */
  function FirstSymbol(syms: seq<Symbol>, key: nat): (r: Option<Symbol>)
    ensures r.Some? ==> r.value in syms && r.value.Usable() && r.value.value == key
    ensures r.None? ==> forall s <- syms | s.Usable() :: s.value != key
  {
    if syms == [] then None
    else if syms[0].Usable() && syms[0].value == key then Some(syms[0])
    else FirstSymbol(syms[1..], key)
  }

  /** Symbol j has a name and lies in an executable section, and no such symbol before it has its value. */
  ghost predicate ClaimsAsSymbol(syms: seq<Symbol>, j: nat) {
    && j < |syms| && syms[j].text && syms[j].name != ""
    && forall k | 0 <= k < j && syms[k].text && syms[k].name != "" :: syms[k].value != syms[j].value
  }

  lemma {:induction false} FirstSymbolClaims(syms: seq<Symbol>, j: nat)
    requires ClaimsAsSymbol(syms, j)
    ensures FirstSymbol(syms, syms[j].value) == Some(syms[j])
    decreases |syms|
  {
    if j > 0 {
      assert ClaimsAsSymbol(syms[1..], j - 1);
      FirstSymbolClaims(syms[1..], j - 1);
    }
  }

  lemma {:induction false} FirstSymbolOf(syms: seq<Symbol>, key: nat) returns (j: nat)
    requires FirstSymbol(syms, key).Some?
    ensures ClaimsAsSymbol(syms, j) && syms[j].value == key && FirstSymbol(syms, key) == Some(syms[j])
    decreases |syms|
  {
    if syms[0].Usable() && syms[0].value == key {
      j := 0;
    } else {
      var k := FirstSymbolOf(syms[1..], key);
      j := k + 1;
    }
  }

  lemma {:induction false} FirstSymbolSnoc(syms: seq<Symbol>, s: Symbol, key: nat)
    ensures FirstSymbol(syms + [s], key)
         == if FirstSymbol(syms, key).Some? then FirstSymbol(syms, key)
            else if s.Usable() && s.value == key then Some(s) else None
  {
    if syms == [] {
      assert [s][1..] == [];
    } else {
      FirstSymbolSnoc(syms[1..], s, key);
      assert (syms + [s])[1..] == syms[1..] + [s];
    }
  }

  /** What the merged table must say of a key: the DWARF range there; nothing if the key lies inside a
      DWARF range; otherwise the first symbol there, without an end. */
  ghost function Wanted(dwarf: Table, syms: seq<Symbol>, key: nat): Option<Subroutine> {
    if key in dwarf then Some(dwarf[key])
    else if Covered(dwarf, key) then None
    else if FirstSymbol(syms, key).Some? then Some(FirstSymbol(syms, key).value.ToSubroutine())
    else None
  }

  ghost predicate Merged(dwarf: Table, syms: seq<Symbol>, table: Table) {
    forall key :: At(table, key) == Wanted(dwarf, syms, key)
  }

  /** A range of the merged table is a DWARF range. */
  lemma RangesAreDwarf(dwarf: Table, syms: seq<Symbol>, table: Table, pc: nat)
    requires Merged(dwarf, syms, table)
    ensures forall key :: Covers(table, key, pc) <==> Covers(dwarf, key, pc)
    ensures Covered(table, pc) <==> Covered(dwarf, pc)
  {
    forall key ensures Covers(table, key, pc) <==> Covers(dwarf, key, pc) {
      assert At(table, key) == Wanted(dwarf, syms, key);
    }
  }

  /** If the DWARF ranges do not meet, the merged table is disjoint too. */
  lemma MergedIsRanged(dwarf: Table, syms: seq<Symbol>, table: Table)
    requires Ranged(dwarf) && Merged(dwarf, syms, table)
    ensures Ranged(table)
  {
    forall key <- table ensures Sound(key, table[key]) {
      assert At(table, key) == Wanted(dwarf, syms, key);
    }
    forall key <- table, later <- table | key < later ensures table[key].pcEnd <= later {
      assert At(table, key) == Wanted(dwarf, syms, key);
      assert At(table, later) == Wanted(dwarf, syms, later);
      if table[key].pcEnd > later {
        assert Covers(dwarf, key, later);
      }
    }
  }

  /** A symbol keeps the table as it should be, whether it is skipped or placed. */
  lemma MergeStep(dwarf: Table, syms: seq<Symbol>, table: Table, s: Symbol)
    requires Ranged(dwarf) && Merged(dwarf, syms, table)
    ensures Merged(dwarf, syms + [s],
              if s.Usable() && !Taken(table, s.value) then table[s.value := s.ToSubroutine()] else table)
  {
    MergedIsRanged(dwarf, syms, table);
    TakenMeans(table, s.value);
    RangesAreDwarf(dwarf, syms, table, s.value);
    var r := if s.Usable() && !Taken(table, s.value) then table[s.value := s.ToSubroutine()] else table;
    forall key ensures At(r, key) == Wanted(dwarf, syms + [s], key) {
      FirstSymbolSnoc(syms, s, key);
      assert At(table, key) == Wanted(dwarf, syms, key);
    }
  }

  /** elf_t::subroutines: the symbols of all symbol tables, in order. */
  method MergeSymbols(dwarf: Table, syms: seq<Symbol>) returns (table: Table)
    requires Ranged(dwarf)
    ensures Merged(dwarf, syms, table)
    ensures Ranged(table)
  {
    table := dwarf;
    for n := 0 to |syms|
      invariant Merged(dwarf, syms[..n], table)
    {
      var s := syms[n];
      assert syms[..n + 1] == syms[..n] + [s];
      MergeStep(dwarf, syms[..n], table, s);
      if !s.text {
        continue;
      }
      var prev := Floor(table, s.value);
      if prev.Some? {
        if s.value == prev.value || s.value < table[prev.value].pcEnd {
          continue;
        }
      }
      if s.name != "" {
        table := table[s.value := s.ToSubroutine()];
      }
    }
    assert syms[..|syms|] == syms;
    MergedIsRanged(dwarf, syms, table);
  }

  /** The symbols change nothing inside the DWARF ranges; elsewhere a lookup gives the nearest symbol
      below, or nothing. */
  lemma DwarfRangesWin(dwarf: Table, syms: seq<Symbol>, table: Table, pc: nat)
    requires Ranged(dwarf) && Merged(dwarf, syms, table)
    ensures Covered(dwarf, pc) ==>
      Find(table, pc) == Find(dwarf, pc) && At(table, Find(table, pc).value) == At(dwarf, Find(dwarf, pc).value)
    ensures !Covered(dwarf, pc) && Find(table, pc).Some? ==> table[Find(table, pc).value].pcEnd == 0
  {
    MergedIsRanged(dwarf, syms, table);
    RangesAreDwarf(dwarf, syms, table, pc);
    if key :| Covers(dwarf, key, pc) {
      FindsCoveringRange(table, key, pc);
      FindsCoveringRange(dwarf, key, pc);
      assert At(table, key) == Wanted(dwarf, syms, key);
    } else if Find(table, pc).Some? {
      FindsCoveringRange(table, Find(table, pc).value, pc);
    }
  }
}
