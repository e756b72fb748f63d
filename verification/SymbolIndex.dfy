/** The dense index (ObjdumpedBinary): an array with an instruction record for each address of the image,
    filled once from the subroutine table so that a lookup is one array access. */
module SymbolIndex {
  import opened Common
  import opened SymbolTable

  /** What the table says of the address `pc` of the subroutine at `key`. */
  function Describe(sub: Subroutine, key: nat, pc: nat): Instr {
    Instr(sub.name, pc == key, pc != key && pc in sub.callsites, !sub.isFunction)
  }

  /** The answer of the ordered lookup. */
  function Expect(table: Table, pc: nat): Option<Instr> {
    match Find(table, pc)
    case None => None
    case Some(key) => Some(Describe(table[key], key, pc))
  }

  /** In a table of disjoint ranges that answer says: present exactly when a range covers the address or a
      lone symbol is the nearest key below; an entry exactly at the keys; a call site exactly at those that
      some covering range lists, other than its own entry. */
  lemma ExpectMeans(table: Table, pc: nat)
    requires Ranged(table)
    ensures Expect(table, pc).Some? <==>
      Covered(table, pc) || (Floor(table, pc).Some? && table[Floor(table, pc).value].pcEnd == 0)
    ensures Expect(table, pc).Some? && Expect(table, pc).value.isFnEntry <==> pc in table
    ensures Expect(table, pc).Some? && Expect(table, pc).value.isCallsite <==>
      pc !in table && exists key :: Covers(table, key, pc) && pc in table[key].callsites
    ensures forall key | Covers(table, key, pc) ::
      Expect(table, pc).Some? && Expect(table, pc).value.functionName == table[key].name
      && (Expect(table, pc).value.inAsmSequence <==> !table[key].isFunction)
    ensures !Covered(table, pc) && Expect(table, pc).Some? ==>
      var key := Floor(table, pc).value;
      Expect(table, pc).value.functionName == table[key].name
      && (Expect(table, pc).value.inAsmSequence <==> !table[key].isFunction)
  {
    forall key ensures Covers(table, key, pc) <==> Find(table, pc) == Some(key) && table[key].pcEnd != 0 {
      FindsCoveringRange(table, key, pc);
    }
    if pc in table {
      assert Floor(table, pc) == Some(pc);
      assert Sound(pc, table[pc]);
    }
    if Find(table, pc).Some? {
      assert Sound(Find(table, pc).value, table[Find(table, pc).value]);
    }
  }

  /** The same, as if the table had no keys above `top`. */
  function ExpectUpTo(table: Table, top: int, pc: nat): Option<Instr> {
    match Floor(table, if pc <= top then pc else top)
    case None => None
    case Some(key) =>
      if table[key].pcEnd == 0 || pc < table[key].pcEnd then Some(Describe(table[key], key, pc)) else None
  }

  lemma ExpectAll(table: Table, top: int, pc: nat)
    requires forall key <- table | key <= pc :: key <= top
    ensures ExpectUpTo(table, top, pc) == Expect(table, pc)
  {
  }

  /** The array and the two loop variables are right for the keys up to `top`: before `offset` everything
      is filled, after it nothing, and there every address still belongs to `prev`, if that is set. */
  ghost predicate Built(table: Table, top: int, base: nat, text: seq<Option<Instr>>, offset: nat, prev: Option<Instr>) {
    && offset <= |text|
    && (forall key <- table | key > top :: base + offset <= key)
    && (forall o | 0 <= o < |text| :: text[o] == if o < offset then ExpectUpTo(table, top, base + o) else None)
    && (forall pc: nat | pc >= base + offset :: ExpectUpTo(table, top, pc) == Body(prev))
  }

  function Body(prev: Option<Instr>): Option<Instr> {
    match prev
    case None => None
    case Some(i) => Some(i.(isFnEntry := false))
  }

  /** The array cells after one more subroutine: everything below it is final, its own range is filled, and
      nothing follows. */
  ghost predicate Placed(table: Table, top: int, base: nat, text: seq<Option<Instr>>, key: nat, offset: nat)
    requires key in table
  {
    && base <= key < base + offset <= base + |text|
    && (forall o | 0 <= o < |text| ::
          text[o] == if base + o < key then ExpectUpTo(table, top, base + o)
                     else if o < offset then Some(Describe(table[key], key, base + o)) else None)
  }

  lemma PlacedIsBuilt(table: Table, top: int, base: nat, text: seq<Option<Instr>>, key: nat, offset: nat)
    requires Ranged(table) && key in table && key > top && forall k <- table | k > top :: key <= k
    requires Placed(table, top, base, text, key, offset)
    requires base + offset == if table[key].pcEnd == 0 then key + 1 else table[key].pcEnd
    ensures Built(table, key, base, text, offset,
                  if table[key].pcEnd == 0 then Some(Describe(table[key], key, key)) else None)
  {
    forall pc: nat ensures pc < key ==> ExpectUpTo(table, key, pc) == ExpectUpTo(table, top, pc) {
    }
    assert Floor(table, key) == Some(key);
    assert Sound(key, table[key]);
  }

  /** A call site that the loop over the sites of a subroutine accepts. */
  predicate IsSite(sites: seq<nat>, key: nat, pcEnd: nat, pc: nat) {
    pc in sites && key <= pc && (pcEnd == 0 || pc < pcEnd)
  }

  /** Each empty cell at such a call site is taken. */
  ghost predicate SitesPlaced(base: nat, before: seq<Option<Instr>>, after: seq<Option<Instr>>,
                              sites: seq<nat>, key: nat, pcEnd: nat, target: Instr)
  {
    && |before| <= |after|
    && (forall o | 0 <= o < |after| ::
          after[o] == if o < |before| && before[o].Some? then before[o]
                      else if IsSite(sites, key, pcEnd, base + o) then Some(target) else None)
  }

  /** Each empty cell of the stretch belongs to the body of `entry`. */
  ghost predicate EmptyFilled(before: seq<Option<Instr>>, after: seq<Option<Instr>>, from: nat, to: int, entry: Instr) {
    && |before| == |after|
    && (forall o | 0 <= o < |after| ::
          after[o] == if from <= o < to && before[o] == None then Body(Some(entry)) else before[o])
  }

  /** The entry point, then the call sites, then the rest of the range: the cells of one subroutine. */
  lemma CellsPlaced(table: Table, top: int, base: nat, key: nat, text: seq<Option<Instr>>,
                    sited: seq<Option<Instr>>, filled: seq<Option<Instr>>, offset: nat, entry: Instr)
    requires key in table && Sound(key, table[key]) && entry == Describe(table[key], key, key)
    requires base <= key < base + |text| && table[key].pcEnd <= base + |text|
    requires forall o | 0 <= o < |text| :: text[o] == if base + o < key then ExpectUpTo(table, top, base + o) else None
    requires SitesPlaced(base, text[key - base := Some(entry)], sited, table[key].callsites, key, table[key].pcEnd,
                         entry.(isFnEntry := false, isCallsite := true))
    requires |sited| == |text| && base + offset == if table[key].pcEnd == 0 then key + 1 else table[key].pcEnd
    requires EmptyFilled(sited, filled, key - base + 1, offset, entry)
    ensures Placed(table, top, base, filled, key, offset)
  {
    forall o | 0 <= o < |filled|
      ensures filled[o] == if base + o < key then ExpectUpTo(table, top, base + o)
                           else if o < offset then Some(Describe(table[key], key, base + o)) else None
    {
      if base + o < key {
        EarlierCell(table, base, key, text, sited, o, entry);
      }
    }
  }

  /** What lies before the entry point stays, empty or not. */
  lemma EarlierCell(table: Table, base: nat, key: nat, text: seq<Option<Instr>>, sited: seq<Option<Instr>>, o: nat,
                    entry: Instr)
    requires key in table && base + o < key && key < base + |text|
    requires SitesPlaced(base, text[key - base := Some(entry)], sited, table[key].callsites, key, table[key].pcEnd,
                         entry.(isFnEntry := false, isCallsite := true))
    ensures sited[o] == text[o]
  {
    assert text[key - base := Some(entry)][o] == text[o];
  }

  /** std::map visits the least key first. */
  lemma {:induction false} LeastOf(keys: set<nat>) returns (key: nat)
    requires keys != {}
    ensures key in keys && forall k <- keys :: key <= k
    decreases |keys|
  {
    var x :| x in keys;
    key := x;
    if keys != {x} {
      var y := LeastOf(keys - {x});
      key := if x < y then x else y;
    }
    forall k <- keys ensures key <= k {
      assert k == x || k in keys - {x};
    }
  }

  method Least(keys: set<nat>) returns (key: nat)
    requires keys != {}
    ensures key in keys && forall k <- keys :: key <= k
  {
    ghost var least := LeastOf(keys);
    assert exists key :: key in keys && forall k <- keys :: key <= k;
    key :| key in keys && forall k <- keys :: key <= k;
  }

  // ----- how far the image reaches

  ghost predicate Lone(table: Table, key: nat) { key in table && table[key].pcEnd == 0 }

  /** The image ends at `end` after the keys up to `top`, if nothing has cut it: it reaches `start` and the
      end of each range and no further, and no lone symbol lies at or past `start`. */
  ghost predicate Reaches(table: Table, top: int, start: nat, end: nat) {
    && start <= end
    && (end == start || exists key :: key in table && key <= top && table[key].pcEnd == end)
    && (forall key <- table | key <= top :: key < end && table[key].pcEnd <= end)
    && (forall key: nat | Lone(table, key) && key <= top :: key < start)
  }

  /** The first lone symbol at or past `start` is where the image ends. */
  ghost predicate CutShort(table: Table, start: nat, end: nat) {
    && start <= end && Lone(table, end)
    && (forall key: nat | Lone(table, key) && start <= key :: end <= key)
  }

  /** One more key, the next above `top`, that is not past the end. */
  lemma ReachesNext(table: Table, top: int, start: nat, end: nat, key: nat, end': nat)
    requires Ranged(table) && Reaches(table, top, start, end)
    requires key in table && key > top && forall k <- table | k > top :: key <= k
    requires end' == if table[key].pcEnd > end then table[key].pcEnd else end
    requires table[key].pcEnd == 0 ==> key < end
    ensures Reaches(table, key, start, end')
  {
    assert Sound(key, table[key]);
    forall k: nat | Lone(table, k) && k <= key ensures k < start {
      if end != start {
        var before :| before in table && before <= top && table[before].pcEnd == end;
        assert before < key;
      }
    }
    if end' != end {
      assert table[key].pcEnd == end';
    }
  }

  /** One that is cuts the image short. */
  lemma CutByNext(table: Table, top: int, start: nat, end: nat, key: nat)
    requires Reaches(table, top, start, end)
    requires Lone(table, key) && key > top && key >= end && forall k <- table | k > top :: key <= k
    ensures CutShort(table, start, key)
  {
  }

  /** The extent of the image for good: it is cut short at the first lone symbol at or past `start`, with
      that symbol and all later ones left out, or else it holds every key and every range whole. */
  ghost predicate Extent(table: Table, start: nat, end: nat) {
    && (forall key: nat | Lone(table, key) && start <= key :: CutShort(table, start, end))
    && (!CutShort(table, start, end) ==>
          && start <= end && (end == start || exists key :: key in table && table[key].pcEnd == end)
          && forall key <- table :: key < end && table[key].pcEnd <= end)
  }

  /** So every subroutine has its cells exactly when no lone symbol lies at or past `start`. */
  lemma AllPlacedExactlyWhen(table: Table, start: nat, end: nat)
    requires Extent(table, start, end)
    ensures (forall key <- table :: key < end && table[key].pcEnd <= end)
       <==> (forall key: nat | Lone(table, key) :: key < start)
  {
    if CutShort(table, start, end) {
      assert end in table;
    }
  }

  /** A range that comes after such a symbol has no cells at all. */
  lemma LaterRangesAreLost(start: nat, symbol: Subroutine, range: Subroutine) returns (table: Table)
    requires symbol.pcEnd == 0 && symbol.callsites == [] && range.pcEnd == start + 8
    ensures Ranged(table) && start + 4 in table && table[start + 4] == range
    ensures forall end: nat | Extent(table, start, end) :: end == start
  {
    table := map[start := symbol, start + 4 := range];
    forall end: nat | Extent(table, start, end) ensures end == start {
      assert Lone(table, start);
    }
  }

  /** The end of the image once there is room up to a subroutine, or for its range. */
  function Farther(end: nat, table: Table, key: nat): nat
    requires key in table
  {
    var needed := if table[key].pcEnd > key then table[key].pcEnd else key;
    if end < needed then needed else end
  }

  /** The loop over the table at some turn. */
  ghost predicate Visited(table: Table, todo: set<nat>, start: nat, top: int, end: nat, stop: bool) {
    && todo <= table.Keys
    && (!stop ==> (forall key <- table :: key > top <==> key in todo) && Reaches(table, top, start, end))
    && (stop ==> (forall key <- table | key > top :: end <= key) && CutShort(table, start, end))
  }

  lemma VisitedNext(table: Table, todo: set<nat>, start: nat, top: int, key: nat, before: nat, end: nat, stop: bool)
    requires Ranged(table) && Visited(table, todo, start, top, before, false)
    requires key in todo && forall k <- todo :: key <= k
    requires end == Farther(before, table, key)
    requires stop <==> table[key].pcEnd == 0 && before <= key
    ensures Visited(table, todo - {key}, start, if stop then top else key, end, stop)
  {
    assert Sound(key, table[key]);
    if stop {
      CutByNext(table, top, start, before, key);
    } else {
      ReachesNext(table, top, start, before, key, end);
    }
  }

  /** And what it has built. */
  ghost predicate Midway(table: Table, todo: set<nat>, start: nat, top: int, base: nat, text: seq<Option<Instr>>,
                         offset: nat, prev: Option<Instr>, stop: bool)
  {
    Visited(table, todo, start, top, base + |text|, stop) && Built(table, top, base, text, offset, prev)
  }

  lemma MidwayStarts(table: Table, base: nat, text: seq<Option<Instr>>)
    requires forall o | 0 <= o < |text| :: text[o] == None
    requires forall key <- table :: base <= key
    ensures Midway(table, table.Keys, base + |text|, -1, base, text, 0, None, false)
  {
  }

  lemma MidwayNext(table: Table, todo: set<nat>, start: nat, top: int, key: nat, before: nat, base: nat,
                   text: seq<Option<Instr>>, offset: nat, prev: Option<Instr>, stop: bool)
    requires Ranged(table) && Visited(table, todo, start, top, before, false)
    requires key in todo && forall k <- todo :: key <= k
    requires base + |text| == Farther(before, table, key)
    requires stop <==> table[key].pcEnd == 0 && before <= key
    requires Built(table, if stop then top else key, base, text, offset, prev)
    ensures Midway(table, todo - {key}, start, if stop then top else key, base, text, offset, prev, stop)
    ensures |todo - {key}| < |todo|
  {
    VisitedNext(table, todo, start, top, key, before, base + |text|, stop);
  }

  lemma MidwayEnds(table: Table, todo: set<nat>, start: nat, top: int, base: nat, text: seq<Option<Instr>>,
                   offset: nat, prev: Option<Instr>, stop: bool)
    requires Midway(table, todo, start, top, base, text, offset, prev, stop) && (todo == {} || stop)
    ensures Built(table, top, base, text, offset, prev)
    ensures Extent(table, start, base + |text|)
    ensures forall key <- table | key > top :: base + |text| <= key
  {
    if !stop {
      assert forall key: nat | Lone(table, key) :: key < start;
    }
  }

  class ObjdumpedBinary {
    var baseaddr: nat
    var progtext: seq<Option<Instr>>

    predicate InImage(pc: nat)
      reads this
    {
      baseaddr <= pc < baseaddr + |progtext|
    }

    /** getInstrFromAddr */
    function GetInstrFromAddr(pc: nat): Option<Instr>
      reads this
    {
      if pc < baseaddr then None
      else if pc - baseaddr >= |progtext| then None
      else progtext[pc - baseaddr]
    }

    /** For a table of disjoint ranges the array answers every address of the image as the ordered lookup
        does, and no other address.  A lone symbol past the image first makes it longer, up to its own
        address, so nothing is ever written past the vector; but then the loop ends there, and the image
        with it. */
    constructor (table: Table, base: nat, limit: nat)
      requires Ranged(table)
      ensures forall pc: nat :: GetInstrFromAddr(pc) == if InImage(pc) then Expect(table, pc) else None
      ensures forall pc: nat | base <= pc < limit :: InImage(pc)
      ensures forall key <- table :: baseaddr <= key
      ensures baseaddr == base || (baseaddr < base && baseaddr in table)
      ensures Extent(table, if limit > baseaddr then limit else baseaddr, baseaddr + |progtext|)
    {
      var low := base;
      if table.Keys != {} {
        var addr := Least(table.Keys);
        low := if addr < base then addr else base;
      }
      baseaddr := low;
      progtext := if limit > low then Nulls(limit - low) else [];
      new;
      Fill(table);
    }

    static function Nulls(n: nat): (r: seq<Option<Instr>>)
      ensures |r| == n && forall i | 0 <= i < n :: r[i] == None
    {
      seq(n, i => None)
    }

    /** vector::resize, upwards */
    method Resize(n: nat)
      requires |progtext| <= n
      modifies `progtext
      ensures |progtext| == n && old(progtext) <= progtext
      ensures forall o | |old(progtext)| <= o < n :: progtext[o] == None
    {
      progtext := progtext + Nulls(n - |progtext|);
    }

    /** The loops that give the empty cells from `from` to `to` to the body of `entry`. */
    method FillEmpty(from: nat, to: nat, entry: Instr) returns (offset: nat)
      requires to <= |progtext|
      modifies `progtext
      ensures offset == if from < to then to else from
      ensures EmptyFilled(old(progtext), progtext, from, to, entry)
    {
      offset := from;
      while offset < to
        invariant from <= offset && (from < to ==> offset <= to) && (from >= to ==> offset == from)
        invariant EmptyFilled(old(progtext), progtext, from, offset, entry)
      {
        if progtext[offset] == None {
          progtext := progtext[offset := Body(Some(entry))];
        }
        offset := offset + 1;
      }
    }

    static lemma SiteSnoc(sites: seq<nat>, n: nat, key: nat, pcEnd: nat)
      requires n < |sites|
      ensures forall pc: nat {:trigger pc in sites[..n + 1]} {:trigger IsSite(sites[..n + 1], key, pcEnd, pc)} ::
        IsSite(sites[..n + 1], key, pcEnd, pc) <==>
        (IsSite(sites[..n], key, pcEnd, pc) || (pc == sites[n] && key <= pc && (pcEnd == 0 || pc < pcEnd)))
    {
      assert sites[..n + 1] == sites[..n] + [sites[n]];
    }

    /** The loop over the call sites: sites out of range and cells already taken are left alone. */
    method PlaceCallsites(sites: seq<nat>, key: nat, pcEnd: nat, target: Instr)
      requires baseaddr <= key && pcEnd <= baseaddr + |progtext|
      modifies `progtext
      ensures pcEnd != 0 || sites == [] ==> |progtext| == |old(progtext)|
      ensures SitesPlaced(baseaddr, old(progtext), progtext, sites, key, pcEnd, target)
    {
      for n := 0 to |sites|
        invariant pcEnd != 0 || sites == [] ==> |progtext| == |old(progtext)|
        invariant SitesPlaced(baseaddr, old(progtext), progtext, sites[..n], key, pcEnd, target)
        invariant forall pc: nat :: IsSite(sites[..n], key, pcEnd, pc) ==> pc < baseaddr + |progtext|
      {
        var site := sites[n];
        SiteSnoc(sites, n, key, pcEnd);
        if site < key {
          continue;
        }
        var offset := site - baseaddr;
        if pcEnd != 0 {
          if site >= pcEnd {
            continue;
          }
        } else if offset >= |progtext| {
          Resize(offset + 1);
        }
        if progtext[offset].Some? {
          continue;
        }
        progtext := progtext[offset := Some(target)];
      }
      assert sites[..|sites|] == sites;
    }

    /** The cells of one subroutine. */
    method PlaceSubroutine(table: Table, ghost top: int, key: nat) returns (offset: nat, entry: Instr)
      requires key in table && Sound(key, table[key])
      requires baseaddr <= key < baseaddr + |progtext| && table[key].pcEnd <= baseaddr + |progtext|
      requires forall o | 0 <= o < |progtext| ::
        progtext[o] == if baseaddr + o < key then ExpectUpTo(table, top, baseaddr + o) else None
      modifies `progtext
      ensures |progtext| == |old(progtext)|
      ensures entry == Describe(table[key], key, key)
      ensures baseaddr + offset == if table[key].pcEnd == 0 then key + 1 else table[key].pcEnd
      ensures Placed(table, top, baseaddr, progtext, key, offset)
    {
      var sub := table[key];
      var start := key - baseaddr;
      var end := if sub.pcEnd > key then sub.pcEnd - baseaddr else start;
      ghost var text := progtext;
      entry := Instr(sub.name, true, false, !sub.isFunction);
      progtext := progtext[start := Some(entry)];
      var target := entry.(isFnEntry := false, isCallsite := true);
      PlaceCallsites(sub.callsites, key, sub.pcEnd, target);
      ghost var sited := progtext;
      offset := FillEmpty(start + 1, end, entry);
      CellsPlaced(table, top, baseaddr, key, text, sited, progtext, offset, entry);
    }

    /** Makes room up to the next subroutine, or for its range, and gives what lies before it to the lone
        symbol `prev`. */
    method Advance(table: Table, ghost top: int, key: nat, offset0: nat, prev: Option<Instr>) returns (offset: nat)
      requires key in table && key > top && Sound(key, table[key])
      requires Built(table, top, baseaddr, progtext, offset0, prev)
      requires forall k <- table | k > top :: key <= k
      modifies `progtext
      ensures baseaddr + |progtext| == Farther(baseaddr + |old(progtext)|, table, key)
      ensures Built(table, top, baseaddr, progtext, offset, prev)
      ensures prev.Some? ==> baseaddr + offset == key
    {
      offset := offset0;
      var start := key - baseaddr;
      var end := if table[key].pcEnd > key then table[key].pcEnd - baseaddr else start;
      if |progtext| < end {
        Resize(end);
      }
      if prev.Some? {
        offset := FillEmpty(offset, start, prev.value);
      }
    }

    /** One trip of the loop over the table, for the next key.  `stop` is its break: an entry point at the
        end of the image, which has no cell. */
    method AddSubroutine(table: Table, ghost top: int, key: nat, offset0: nat, prev0: Option<Instr>)
      returns (stop: bool, offset: nat, prev: Option<Instr>)
      requires Ranged(table) && key in table && key > top && forall k <- table | k > top :: key <= k
      requires Built(table, top, baseaddr, progtext, offset0, prev0)
      modifies `progtext
      ensures baseaddr + |progtext| == Farther(baseaddr + |old(progtext)|, table, key)
      ensures Built(table, if stop then top else key, baseaddr, progtext, offset, prev)
      ensures stop <==> table[key].pcEnd == 0 && baseaddr + |old(progtext)| <= key
    {
      assert Sound(key, table[key]);
      offset := Advance(table, top, key, offset0, prev0);
      if key - baseaddr >= |progtext| {
        return true, offset, prev0;
      }
      // No overlap at the entry point: see Built.
      assert progtext[key - baseaddr] == None;
      var entry: Instr;
      offset, entry := PlaceSubroutine(table, top, key);
      PlacedIsBuilt(table, top, baseaddr, progtext, key, offset);
      stop, prev := false, if table[key].pcEnd != 0 then None else Some(entry);
    }

    /** The lone symbol that is left reaches to the end of the image. */
    method FillTail(table: Table, ghost top: int, offset: nat, prev: Option<Instr>)
      requires Built(table, top, baseaddr, progtext, offset, prev)
      requires forall key <- table | key > top :: baseaddr + |progtext| <= key
      modifies `progtext
      ensures |progtext| == |old(progtext)|
      ensures forall pc: nat :: GetInstrFromAddr(pc) == if InImage(pc) then Expect(table, pc) else None
    {
      if prev.Some? {
        var _ := FillEmpty(offset, |progtext|, prev.value);
      }
      forall pc: nat | InImage(pc) ensures GetInstrFromAddr(pc) == Expect(table, pc) {
        ExpectAll(table, top, pc);
      }
    }

    /** One trip of the loop, with its key. */
    method NextSubroutine(table: Table, todo0: set<nat>, ghost start: nat, ghost top0: int, offset0: nat,
                          prev0: Option<Instr>)
      returns (todo: set<nat>, stop: bool, offset: nat, prev: Option<Instr>, ghost top: int)
      requires Ranged(table) && todo0 != {}
      requires Midway(table, todo0, start, top0, baseaddr, progtext, offset0, prev0, false)
      modifies `progtext
      ensures Midway(table, todo, start, top, baseaddr, progtext, offset, prev, stop) && |todo| < |todo0|
    {
      var key := Least(todo0);
      ghost var before := baseaddr + |progtext|;
      stop, offset, prev := AddSubroutine(table, top0, key, offset0, prev0);
      todo, top := todo0 - {key}, if stop then top0 else key;
      MidwayNext(table, todo0, start, top0, key, before, baseaddr, progtext, offset, prev, stop);
    }

    /** The loop over the table. */
    method PlaceAll(table: Table)
      returns (offset: nat, prev: Option<Instr>, ghost top: int, ghost todo: set<nat>, ghost stop: bool)
      requires Ranged(table)
      requires forall key <- table :: baseaddr <= key
      requires progtext == Nulls(|progtext|)
      modifies `progtext
      ensures Midway(table, todo, baseaddr + |old(progtext)|, top, baseaddr, progtext, offset, prev, stop)
      ensures todo == {} || stop
    {
      ghost var start := baseaddr + |progtext|;
      offset, prev, top := 0, None, -1;
      var keys, broken := table.Keys, false;
      MidwayStarts(table, baseaddr, progtext);
      while keys != {} && !broken
        invariant Midway(table, keys, start, top, baseaddr, progtext, offset, prev, broken)
        decreases |keys|
      {
        keys, broken, offset, prev, top := NextSubroutine(table, keys, start, top, offset, prev);
      }
      todo, stop := keys, broken;
    }

    method Fill(table: Table)
      requires Ranged(table)
      requires forall key <- table :: baseaddr <= key
      requires progtext == Nulls(|progtext|)
      modifies `progtext
      ensures forall pc: nat :: GetInstrFromAddr(pc) == if InImage(pc) then Expect(table, pc) else None
      ensures Extent(table, baseaddr + |old(progtext)|, baseaddr + |progtext|)
    {
      ghost var start := baseaddr + |progtext|;
      var offset, prev;
      ghost var top, todo, stop;
      offset, prev, top, todo, stop := PlaceAll(table);
      MidwayEnds(table, todo, start, top, baseaddr, progtext, offset, prev, stop);
      FillTail(table, top, offset, prev);
    }
  }

  /** Symbol j, outside all DWARF ranges, is the nearest beginning at or below the address: no DWARF range and no
      other such symbol begins between. */
  ghost predicate Nearest(dies: seq<Die>, syms: seq<Symbol>, j: nat, pc: nat) {
    && ClaimsAsSymbol(syms, j) && syms[j].value <= pc && !InAnyDie(dies, syms[j].value)
    && (forall i: nat | Claims(dies, i) && dies[i].low.value <= pc :: dies[i].low.value < syms[j].value)
    && (forall k: nat | ClaimsAsSymbol(syms, k) && syms[k].value <= pc && !InAnyDie(dies, syms[k].value) ::
          syms[k].value <= syms[j].value)
  }

  /** What the index should say of an address, in terms of the DWARF entries and the symbols.  Inside a DWARF
      range it is an instruction of that function, and of no asm sequence.  Elsewhere it belongs to the nearest
      symbol below, and to an asm sequence exactly if that symbol is not a function; or to nothing, if a DWARF
      range is nearer, or there is no symbol. */
  ghost predicate Answers(dies: seq<Die>, syms: seq<Symbol>, pc: nat, r: Option<Instr>) {
    && (forall i: nat | InDie(dies, i, pc) ::
          r == Some(Instr(dies[i].name.value, pc == dies[i].low.value,
                          pc != dies[i].low.value && pc in dies[i].callsites, false)))
    && (!InAnyDie(dies, pc) ==>
          forall j: nat | Nearest(dies, syms, j, pc) ::
            r == Some(Instr(syms[j].name, pc == syms[j].value, false, !syms[j].isFunction)))
    && (!InAnyDie(dies, pc) && (forall j: nat :: !Nearest(dies, syms, j, pc)) ==> r == None)
  }

  lemma AnswersInDie(dies: seq<Die>, syms: seq<Symbol>, dwarf: Table, table: Table, pc: nat, i: nat)
    requires FromDies(dies, dwarf) && Merged(dwarf, syms, table) && Ranged(table)
    requires InDie(dies, i, pc)
    ensures Expect(table, pc) == Some(Instr(dies[i].name.value, pc == dies[i].low.value,
                                            pc != dies[i].low.value && pc in dies[i].callsites, false))
  {
    var key := dies[i].low.value;
    DiesInTable(dies, dwarf);
    CoveredByDies(dies, dwarf, pc);
    assert HasDie(dwarf, dies[i]);
    assert At(table, key) == Wanted(dwarf, syms, key);
    FindsCoveringRange(table, key, pc);
  }

  /** The keys that are not those of DWARF ranges are those of symbols. */
  lemma SymbolKey(dies: seq<Die>, syms: seq<Symbol>, dwarf: Table, table: Table, key: nat) returns (j: nat)
    requires FromDies(dies, dwarf) && Merged(dwarf, syms, table) && key in table && key !in dwarf
    ensures ClaimsAsSymbol(syms, j) && syms[j].value == key && !InAnyDie(dies, key)
    ensures table[key] == Subroutine(syms[j].name, [], 0, syms[j].isFunction)
  {
    assert At(table, key) == Wanted(dwarf, syms, key);
    CoveredByDies(dies, dwarf, key);
    j := FirstSymbolOf(syms, key);
  }

  lemma DieOfKey(dies: seq<Die>, dwarf: Table, key: nat) returns (i: nat)
    requires Disjoint(dies) && FromDies(dies, dwarf) && key in dwarf
    ensures Claims(dies, i) && dies[i].low.value == key && InDie(dies, i, key) && dwarf[key].pcEnd != 0
  {
    DiesInTable(dies, dwarf);
    i :| Claims(dies, i) && dies[i].low == Some(key);
    assert dies[i].low.value < dies[i].End() && HasDie(dwarf, dies[i]);
  }

  lemma KeyOfSymbol(dies: seq<Die>, syms: seq<Symbol>, dwarf: Table, table: Table, j: nat)
    requires Disjoint(dies) && FromDies(dies, dwarf) && Merged(dwarf, syms, table)
    requires ClaimsAsSymbol(syms, j) && !InAnyDie(dies, syms[j].value)
    ensures syms[j].value in table && syms[j].value !in dwarf
    ensures table[syms[j].value] == Subroutine(syms[j].name, [], 0, syms[j].isFunction)
  {
    var key := syms[j].value;
    CoveredByDies(dies, dwarf, key);
    FirstSymbolClaims(syms, j);
    if key in dwarf {
      var i := DieOfKey(dies, dwarf, key);
    }
    assert At(table, key) == Wanted(dwarf, syms, key);
  }

  lemma NearestIsFloor(dies: seq<Die>, syms: seq<Symbol>, dwarf: Table, table: Table, pc: nat, j: nat)
    requires Disjoint(dies) && FromDies(dies, dwarf) && Merged(dwarf, syms, table) && Nearest(dies, syms, j, pc)
    ensures Floor(table, pc) == Some(syms[j].value)
    ensures Expect(table, pc) == Some(Instr(syms[j].name, pc == syms[j].value, false, !syms[j].isFunction))
  {
    KeyOfSymbol(dies, syms, dwarf, table, j);
    var key := Floor(table, pc).value;
    if key in dwarf {
      var i := DieOfKey(dies, dwarf, key);
    } else {
      var k := SymbolKey(dies, syms, dwarf, table, key);
    }
  }

  /** A lookup outside the ranges finds a symbol, with nothing nearer. */
  lemma FloorIsNearest(dies: seq<Die>, syms: seq<Symbol>, dwarf: Table, table: Table, pc: nat) returns (j: nat)
    requires Disjoint(dies) && FromDies(dies, dwarf) && Merged(dwarf, syms, table)
    requires !InAnyDie(dies, pc) && Expect(table, pc).Some?
    ensures Nearest(dies, syms, j, pc)
  {
    var key := Floor(table, pc).value;
    CoveredByDies(dies, dwarf, pc);
    RangesAreDwarf(dwarf, syms, table, pc);
    assert !Covers(table, key, pc) && At(table, key) == Wanted(dwarf, syms, key);
    if key in dwarf {
      var i := DieOfKey(dies, dwarf, key);
      assert false;
    }
    j := SymbolKey(dies, syms, dwarf, table, key);
    NothingNearer(dies, syms, dwarf, table, pc, j);
  }

  lemma NothingNearer(dies: seq<Die>, syms: seq<Symbol>, dwarf: Table, table: Table, pc: nat, j: nat)
    requires Disjoint(dies) && FromDies(dies, dwarf) && Merged(dwarf, syms, table)
    requires ClaimsAsSymbol(syms, j) && !InAnyDie(dies, syms[j].value) && Floor(table, pc) == Some(syms[j].value)
    ensures Nearest(dies, syms, j, pc)
  {
    forall i: nat | Claims(dies, i) && dies[i].low.value <= pc ensures dies[i].low.value < syms[j].value {
      DieBegins(dies, syms, dwarf, table, i);
    }
    forall k: nat | ClaimsAsSymbol(syms, k) && syms[k].value <= pc && !InAnyDie(dies, syms[k].value)
      ensures syms[k].value <= syms[j].value
    {
      KeyOfSymbol(dies, syms, dwarf, table, k);
    }
  }

  lemma DieBegins(dies: seq<Die>, syms: seq<Symbol>, dwarf: Table, table: Table, i: nat)
    requires Disjoint(dies) && FromDies(dies, dwarf) && Merged(dwarf, syms, table) && Claims(dies, i)
    ensures dies[i].low.value in table && InAnyDie(dies, dies[i].low.value)
  {
    DiesInTable(dies, dwarf);
    var key := dies[i].low.value;
    assert HasDie(dwarf, dies[i]) && At(table, key) == Wanted(dwarf, syms, key);
    var k := DieOfKey(dies, dwarf, key);
  }

  /** The lookup in the merged table answers so. */
  lemma ExpectAnswers(dies: seq<Die>, syms: seq<Symbol>, dwarf: Table, table: Table, pc: nat)
    requires Disjoint(dies) && FromDies(dies, dwarf) && Merged(dwarf, syms, table) && Ranged(table)
    ensures Answers(dies, syms, pc, Expect(table, pc))
  {
    forall i: nat | InDie(dies, i, pc)
      ensures Expect(table, pc) == Some(Instr(dies[i].name.value, pc == dies[i].low.value,
                                              pc != dies[i].low.value && pc in dies[i].callsites, false))
    {
      AnswersInDie(dies, syms, dwarf, table, pc, i);
    }
    if !InAnyDie(dies, pc) {
      forall j: nat | Nearest(dies, syms, j, pc)
        ensures Expect(table, pc) == Some(Instr(syms[j].name, pc == syms[j].value, false, !syms[j].isFunction))
      {
        NearestIsFloor(dies, syms, dwarf, table, pc, j);
      }
      if Expect(table, pc).Some? {
        var j := FloorIsNearest(dies, syms, dwarf, table, pc);
      }
    }
  }

  /** From the DWARF entries and the symbol tables to the index. */
  method Annotate(dies: seq<Die>, syms: seq<Symbol>, sections: seq<Section>)
    returns (index: ObjdumpedBinary, ghost dwarf: Table, ghost table: Table)
    requires Disjoint(dies)
    ensures FromDies(dies, dwarf) && Merged(dwarf, syms, table) && Ranged(dwarf) && Ranged(table)
    ensures fresh(index)
    ensures forall pc: nat :: index.GetInstrFromAddr(pc) == if index.InImage(pc) then Expect(table, pc) else None
    ensures forall pc: nat | index.InImage(pc) :: Answers(dies, syms, pc, index.GetInstrFromAddr(pc))
    ensures forall s <- sections, pc: nat | s.text && s.addr <= pc < (s.addr + s.size) % 0x1_0000_0000_0000_0000 ::
              index.InImage(pc)
  {
    var ranges := SubroutinesOfDwarf(dies);
    var all := MergeSymbols(ranges, syms);
    var base, limit := TextBounds(sections);
    index := new ObjdumpedBinary(all, base, limit);
    dwarf, table := ranges, all;
    forall pc: nat | index.InImage(pc) ensures Answers(dies, syms, pc, Expect(table, pc)) {
      ExpectAnswers(dies, syms, dwarf, table, pc);
    }
  }
}
