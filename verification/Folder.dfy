/** The flame-graph folder (stackcollapse-tracerv.py): a second stack machine, which reads the
    unwinder's lines and charges the time between them to the stack that was open. */
module Folder {
  import opened Common
  import opened Fields
  import opened Unwinder
  import TraceText

  /** What the folder's regular expression leaves of a label.  It sees the same text on the Start and
      on the End line of a label, and nothing here depends on how it shortens that text. */
  type Clean = (string, string) -> string

  /** ';'.join(stack) */
  function Join(labels: seq<string>): string { TraceText.Join(labels, ';') }

  /** A text that names one label. */
  predicate Plain(text: string) { text != "" && ';' !in text }

  ghost predicate AllPlain(labels: seq<string>) {
    forall i | 0 <= i < |labels| :: Plain(labels[i])
  }

  /** Splitting a key at the semicolons gives the stack back. */
  lemma {:induction false} KeySplits(labels: seq<string>)
    requires labels != [] && forall i | 0 <= i < |labels| :: ';' !in labels[i]
    ensures TraceText.Split(Join(labels), ';', 0) == labels
  {
    if |labels| == 1 {
      CutNone(labels[0], {';'});
    } else {
      KeySplits(labels[1..]);
      CutAt(labels[0], ';', Join(labels[1..]), {';'});
      assert labels == [labels[0]] + labels[1..];
    }
  }

  lemma KeyOfSome(labels: seq<string>)
    requires AllPlain(labels)
    ensures Join(labels) == "" <==> labels == []
  {
    if labels != [] {
      assert Plain(labels[0]);
    }
  }

  /** So different stacks have different keys, and only the empty stack has the empty key. */
  lemma KeysDiffer(a: seq<string>, b: seq<string>)
    requires AllPlain(a) && AllPlain(b) && Join(a) == Join(b)
    ensures a == b
  {
    KeyOfSome(a);
    KeyOfSome(b);
    if a != [] {
      forall i | 0 <= i < |a| ensures ';' !in a[i] {
        assert Plain(a[i]);
      }
      forall i | 0 <= i < |b| ensures ';' !in b[i] {
        assert Plain(b[i]);
      }
      KeySplits(a);
      KeySplits(b);
    }
  }

  /** Any other text is the key of two stacks. */
  lemma OneKeyOneStackExactlyWhen(text: string)
    ensures (forall labels | Join(labels) == text :: labels == [text]) <==> Plain(text)
  {
    if Plain(text) {
      forall labels | Join(labels) == text ensures labels == [text] {
        OnlyStackOf(labels, text);
      }
    } else if text == "" {
      assert Join([]) == text;
    } else {
      var words := TraceText.Split(text, ';', 0);
      TraceText.SplitJoin(text, ';');
      assert Join(words) == text;
      assert ';' !in words[0];
    }
  }

  lemma SemicolonIn(labels: seq<string>)
    ensures |labels| > 1 ==> ';' in Join(labels)
  {
    if |labels| > 1 {
      assert Join(labels)[|labels[0]|] == ';';
    }
  }

  lemma OnlyStackOf(labels: seq<string>, text: string)
    requires Plain(text) && Join(labels) == text
    ensures labels == [text]
  {
    SemicolonIn(labels);
  }

  /** class Folded: a dict, with the insertion order that print follows. */
  datatype Folded<Key(==,!new)> = Folded(order: seq<Key>, counts: map<Key, int>)
  {
    function Get(key: Key): int { if key in counts then counts[key] else 0 }

    function Add(key: Key, count: int): Folded<Key> {
      Folded(if key in counts then order else order + [key], counts[key := Get(key) + count])
    }

    ghost predicate Valid() {
      && (forall k :: k in order <==> k in counts)
      && (forall i, j | 0 <= i < j < |order| :: order[i] != order[j])
    }

    function Total(): int { SumOf(order) }

    function SumOf(keys: seq<Key>): int {
      if keys == [] then 0 else SumOf(keys[..|keys| - 1]) + Get(keys[|keys| - 1])
    }
  }

  /** `series` is what class Series is given, call by call; `skipped` counts the warnings. */
  datatype State = State(
    stack: seq<string>, cycle: nat, data: Folded<string>, series: seq<(string, int)>, skipped: nat, aborted: bool)

  const Begin := State([], 0, Folded([], map[]), [], 0, false)

  function Charge(f: State, key: string, now: nat): State {
    var count := now - f.cycle;
    f.(data := f.data.Add(key, count), series := f.series + [(key, count)], cycle := now)
  }

  /** The loop body. */
  function Fold(f: State, clean: Clean, e: Event): State {
    if f.aborted then f
    else if e.at < f.cycle then f.(skipped := f.skipped + 1)
    else
      var key := Join(f.stack);
      var text := clean(e.pfx, e.name);
      match e.tag
      case Start => Charge(f.(stack := f.stack + [text]), key, e.at)
      case End =>
        if f.stack == [] then f.(skipped := f.skipped + 1)
        else if f.stack[|f.stack| - 1] != text then f.(stack := f.stack[..|f.stack| - 1], aborted := true)
        else Charge(f.(stack := f.stack[..|f.stack| - 1]), key, e.at)
  }

  /** A line is passed over with a warning exactly if its time goes back or it ends a label with none open, and
      it is an error exactly if it ends one that is not the last one opened. */
  lemma ComplainsExactlyWhen(f: State, clean: Clean, e: Event)
    requires !f.aborted
    ensures var r, n := Fold(f, clean, e), |f.stack|;
            && (r.skipped == f.skipped + 1 <==> e.at < f.cycle || (e.tag == End && n == 0))
            && (r.skipped == f.skipped + 1 ==> r == f.(skipped := r.skipped))
            && (r.aborted <==> f.cycle <= e.at && e.tag == End && n > 0 && f.stack[n - 1] != clean(e.pfx, e.name))
            && (r.aborted ==> r.data == f.data && r.series == f.series && r.skipped == f.skipped)
  {
  }

  function FoldAll(f: State, clean: Clean, events: seq<Event>): State
    decreases |events|
  {
    if events == [] then f else FoldAll(Fold(f, clean, events[0]), clean, events[1..])
  }

  // ----- what the folder's own bookkeeping keeps

  function SumSeries<Key>(series: seq<(Key, int)>): int {
    if series == [] then 0 else SumSeries(series[..|series| - 1]) + series[|series| - 1].1
  }

  function SumFor<Key(==,!new)>(series: seq<(Key, int)>, key: Key): int {
    if series == [] then 0
    else SumFor(series[..|series| - 1], key) + if series[|series| - 1].0 == key then series[|series| - 1].1 else 0
  }

  /** Every tick is charged exactly once, and merging stacks loses nothing. */
  ghost predicate Balanced(f: State) {
    Books(f.data, f.series, f.cycle)
  }

  ghost predicate Books<Key(!new)>(data: Folded<Key>, series: seq<(Key, int)>, cycle: nat) {
    data.Valid() && SumSeries(series) == cycle == data.Total()
  }

  lemma {:induction false} SumUnchanged<Key(!new)>(d: Folded<Key>, keys: seq<Key>, key: Key, count: int)
    requires key !in keys
    ensures d.Add(key, count).SumOf(keys) == d.SumOf(keys)
  {
    if keys != [] {
      SumUnchanged(d, keys[..|keys| - 1], key, count);
    }
  }

  lemma {:induction false} SumChanged<Key(!new)>(d: Folded<Key>, keys: seq<Key>, key: Key, count: int)
    requires key in keys && forall i, j | 0 <= i < j < |keys| :: keys[i] != keys[j]
    ensures d.Add(key, count).SumOf(keys) == d.SumOf(keys) + count
  {
    var front, last := keys[..|keys| - 1], keys[|keys| - 1];
    assert keys == front + [last];
    if last == key {
      SumUnchanged(d, front, key, count);
    } else {
      SumChanged(d, front, key, count);
    }
  }

  lemma AddKeepsValid<Key(!new)>(d: Folded<Key>, key: Key, count: int)
    requires d.Valid()
    ensures d.Add(key, count).Valid()
  {
    var r := d.Add(key, count);
    forall k ensures k in r.order <==> k in r.counts { assert k in r.order <==> k in d.order || k == key; }
  }

  lemma AddKeepsTotal<Key(!new)>(d: Folded<Key>, key: Key, count: int)
    requires d.Valid()
    ensures d.Add(key, count).Total() == d.Total() + count
  {
    if key in d.counts {
      SumChanged(d, d.order, key, count);
    } else {
      SumUnchanged(d, d.order, key, count);
      assert d.Add(key, count).order[..|d.order|] == d.order;
    }
  }

  lemma SeriesSnoc<Key(!new)>(series: seq<(Key, int)>, key: Key, count: int)
    ensures SumSeries(series + [(key, count)]) == SumSeries(series) + count
    ensures forall k :: SumFor(series + [(key, count)], k) == SumFor(series, k) + if k == key then count else 0
  {
    assert (series + [(key, count)])[..|series|] == series;
  }

  /** Folded and Series agree on every stack. */
  ghost predicate Agree<Key(!new)>(data: Folded<Key>, series: seq<(Key, int)>) {
    forall k :: data.Get(k) == SumFor(series, k)
  }

  lemma AgreeSnoc<Key(!new)>(data: Folded<Key>, series: seq<(Key, int)>, key: Key, count: int)
    requires Agree(data, series)
    ensures Agree(data.Add(key, count), series + [(key, count)])
  {
    SeriesSnoc(series, key, count);
    forall k ensures data.Add(key, count).Get(k) == SumFor(series + [(key, count)], k) {
      assert data.Add(key, count).Get(k) == data.Get(k) + if k == key then count else 0;
    }
  }

  lemma AddMovesTotal<Key(!new)>(d: Folded<Key>, cycle: nat, key: Key, now: nat)
    requires d.Valid() && d.Total() == cycle <= now
    ensures d.Add(key, now - cycle).Total() == now
  {
    AddKeepsTotal(d, key, now - cycle);
  }

  lemma SeriesMovesSum<Key(!new)>(series: seq<(Key, int)>, cycle: nat, key: Key, now: nat)
    requires SumSeries(series) == cycle <= now
    ensures SumSeries(series + [(key, now - cycle)]) == now
  {
    SeriesSnoc(series, key, now - cycle);
  }

  lemma BooksAfter<Key(!new)>(d: Folded<Key>, series: seq<(Key, int)>, cycle: nat, key: Key, now: nat)
    requires Books(d, series, cycle) && cycle <= now
    ensures Books(d.Add(key, now - cycle), series + [(key, now - cycle)], now)
  {
    AddKeepsValid(d, key, now - cycle);
    AddMovesTotal(d, cycle, key, now);
    SeriesMovesSum(series, cycle, key, now);
  }

  /** A line is charged to the stack before it, or leaves the books alone. */
  ghost predicate Charged(f: State, r: State, key: string, now: nat) {
    && f.cycle <= now && r.cycle == now
    && r.data == f.data.Add(key, now - f.cycle)
    && r.series == f.series + [(key, now - f.cycle)]
  }

  lemma FoldCharges(f: State, clean: Clean, e: Event)
    ensures var r := Fold(f, clean, e);
            || Charged(f, r, Join(f.stack), e.at)
            || (r.data == f.data && r.series == f.series && r.cycle == f.cycle)
  {
  }

  lemma ChargedKeepsBalance(f: State, r: State, key: string, now: nat)
    requires Balanced(f) && Charged(f, r, key, now)
    ensures Balanced(r)
  {
    BooksAfter(f.data, f.series, f.cycle, key, now);
  }

  lemma FoldKeepsBalance(f: State, clean: Clean, e: Event)
    requires Balanced(f)
    ensures Balanced(Fold(f, clean, e))
  {
    FoldCharges(f, clean, e);
    var r := Fold(f, clean, e);
    if Charged(f, r, Join(f.stack), e.at) {
      ChargedKeepsBalance(f, r, Join(f.stack), e.at);
    }
  }

  lemma FoldKeepsAgreement(f: State, clean: Clean, e: Event)
    requires Agree(f.data, f.series)
    ensures Agree(Fold(f, clean, e).data, Fold(f, clean, e).series)
  {
    FoldCharges(f, clean, e);
    AgreeSnoc(f.data, f.series, Join(f.stack), e.at - f.cycle);
  }

  /** Whatever lines it is given, sane or not, the folder's totals over all stacks, the empty one
      included, sum to the last time it accepted, and each total is the sum of the counts that the
      time-ordered mode would print for that stack. */
  lemma {:induction false} FoldAllKeepsBalance(f: State, clean: Clean, events: seq<Event>)
    requires Balanced(f) && Agree(f.data, f.series)
    ensures Balanced(FoldAll(f, clean, events))
    ensures Agree(FoldAll(f, clean, events).data, FoldAll(f, clean, events).series)
    decreases |events|
  {
    if events != [] {
      FoldKeepsBalance(f, clean, events[0]);
      FoldKeepsAgreement(f, clean, events[0]);
      FoldAllKeepsBalance(Fold(f, clean, events[0]), clean, events[1..]);
    }
  }

  // ----- what is printed

  /** Folded.print: one line a stack, in the order the stacks were first seen, but none for the empty stack. */
  function PrintFolded<Key(==,!new)>(d: Folded<Key>, keys: seq<Key>, empty: Key): seq<(Key, int)> {
    if keys == [] then []
    else
      var k := keys[|keys| - 1];
      PrintFolded(d, keys[..|keys| - 1], empty) + if k == empty then [] else [(k, d.Get(k))]
  }

  /** Series.add prints as it goes. */
  function PrintSeries<Key(==,!new)>(series: seq<(Key, int)>, empty: Key): seq<(Key, int)> {
    if series == [] then []
    else
      var x := series[|series| - 1];
      PrintSeries(series[..|series| - 1], empty) + if x.0 == empty then [] else [x]
  }

  lemma {:induction false} PrintedFoldedSum<Key(!new)>(d: Folded<Key>, keys: seq<Key>, empty: Key)
    requires forall i, j | 0 <= i < j < |keys| :: keys[i] != keys[j]
    ensures SumSeries(PrintFolded(d, keys, empty)) == d.SumOf(keys) - if empty in keys then d.Get(empty) else 0
  {
    if keys != [] {
      var front, k := keys[..|keys| - 1], keys[|keys| - 1];
      assert keys == front + [k];
      PrintedFoldedSum(d, front, empty);
      if k != empty {
        SeriesSnoc(PrintFolded(d, front, empty), k, d.Get(k));
      } else {
        assert PrintFolded(d, keys, empty) == PrintFolded(d, front, empty);
      }
    }
  }

  lemma {:induction false} PrintedSeriesSum<Key(!new)>(series: seq<(Key, int)>, empty: Key)
    ensures SumSeries(PrintSeries(series, empty)) == SumSeries(series) - SumFor(series, empty)
  {
    if series != [] {
      var front, x := series[..|series| - 1], series[|series| - 1];
      PrintedSeriesSum(front, empty);
      if x.0 != empty {
        SeriesSnoc(PrintSeries(front, empty), x.0, x.1);
        assert PrintSeries(series, empty) == PrintSeries(front, empty) + [(x.0, x.1)];
      } else {
        assert PrintSeries(series, empty) == PrintSeries(front, empty);
      }
    }
  }

  /** The lines of some keys are those of the first of them and then those of the others; a key has the line
      with its count, unless it is the empty one. */
  lemma {:induction false} FoldedInOrder<Key(!new)>(d: Folded<Key>, a: seq<Key>, b: seq<Key>, key: Key, empty: Key)
    ensures PrintFolded(d, a + b, empty) == PrintFolded(d, a, empty) + PrintFolded(d, b, empty)
    ensures PrintFolded(d, [key], empty) == if key == empty then [] else [(key, d.Get(key))]
  {
    assert [key][..0] == [];
    if b == [] {
      assert a + b == a;
    } else {
      var front, k := b[..|b| - 1], b[|b| - 1];
      FoldedInOrder(d, a, front, key, empty);
      assert (a + b)[..|a + b| - 1] == a + front && (a + b)[|a + b| - 1] == k;
      Regroup(PrintFolded(d, a, empty), PrintFolded(d, front, empty), if k == empty then [] else [(k, d.Get(k))]);
    }
  }

  /** In time mode the same goes for the charges. */
  lemma {:induction false} SeriesInOrder<Key(!new)>(a: seq<(Key, int)>, b: seq<(Key, int)>, x: (Key, int), empty: Key)
    ensures PrintSeries(a + b, empty) == PrintSeries(a, empty) + PrintSeries(b, empty)
    ensures PrintSeries([x], empty) == if x.0 == empty then [] else [x]
  {
    assert [x][..0] == [];
    if b == [] {
      assert a + b == a;
    } else {
      var front, y := b[..|b| - 1], b[|b| - 1];
      SeriesInOrder(a, front, x, empty);
      assert (a + b)[..|a + b| - 1] == a + front && (a + b)[|a + b| - 1] == y;
      Regroup(PrintSeries(a, empty), PrintSeries(front, empty), if y.0 == empty then [] else [y]);
    }
  }

  /** The keys in the order in which they were first charged. */
  function FirstKeys<Key(==)>(series: seq<(Key, int)>): seq<Key> {
    if series == [] then []
    else
      var front, key := FirstKeys(series[..|series| - 1]), series[|series| - 1].0;
      if key in front then front else front + [key]
  }

  /** That is the order in which the script prints them. */
  lemma {:induction false} FoldAllKeepsOrder(f: State, clean: Clean, events: seq<Event>)
    requires f.data.Valid() && f.data.order == FirstKeys(f.series)
    ensures FoldAll(f, clean, events).data.order == FirstKeys(FoldAll(f, clean, events).series)
    decreases |events|
  {
    if events != [] {
      FoldKeepsOrder(f, clean, events[0]);
      FoldAllKeepsOrder(Fold(f, clean, events[0]), clean, events[1..]);
    }
  }

  lemma FoldKeepsOrder(f: State, clean: Clean, e: Event)
    requires f.data.Valid() && f.data.order == FirstKeys(f.series)
    ensures var r := Fold(f, clean, e);
            r.data.Valid() && r.data.order == FirstKeys(r.series)
  {
    var key, count := Join(f.stack), e.at - f.cycle;
    FoldCharges(f, clean, e);
    AddKeepsValid(f.data, key, count);
    assert (f.series + [(key, count)])[..|f.series|] == f.series;
  }

  /** Merged or in order of time, the printed counts sum to the same: the time of the last accepted
      line, less the time during which no label was open. */
  lemma BothModesPrintTheSameTotal(f: State)
    requires Balanced(f) && Agree(f.data, f.series)
    ensures SumSeries(PrintFolded(f.data, f.data.order, "")) == f.cycle - f.data.Get("")
    ensures SumSeries(PrintSeries(f.series, "")) == f.cycle - f.data.Get("")
  {
    PrintedFoldedSum(f.data, f.data.order, "");
    PrintedSeriesSum(f.series, "");
  }

  // ----- the two machines together

  function Texts(clean: Clean, open: seq<Label>): seq<string> {
    seq(|open|, i requires 0 <= i < |open| => clean(open[i].pfx, open[i].name))
  }

  /** What is open after a line that nests. */
  function After(open: seq<Label>, e: Event): seq<Label>
    requires e.tag == End ==> open != []
  {
    if e.tag == Start then open + [Label(e.indent, e.pfx, e.name)] else Front(open)
  }

  predicate Fits(open: seq<Label>, e: Event) {
    if e.tag == Start then e.indent == |open| + 1 else open != [] && Last(open) == Label(e.indent, e.pfx, e.name)
  }

  lemma FollowOne(clean: Clean, open: seq<Label>, f: State, e: Event)
    requires !f.aborted && f.stack == Texts(clean, open) && f.cycle <= e.at && Fits(open, e)
    ensures var r := Fold(f, clean, e);
            !r.aborted && r.skipped == f.skipped && r.stack == Texts(clean, After(open, e)) && r.cycle == e.at
  {
    var x := Label(e.indent, e.pfx, e.name);
    assert Texts(clean, open + [x]) == Texts(clean, open) + [clean(e.pfx, e.name)];
    if open != [] {
      assert Texts(clean, Front(open)) == Texts(clean, open)[..|open| - 1];
    }
  }

  /** On lines that nest, the folder keeps the labels that are open, and it complains exactly when a time
      goes back. */
  lemma {:induction false} Follow(clean: Clean, open: seq<Label>, f: State, events: seq<Event>)
    requires !f.aborted && f.stack == Texts(clean, open) && Replay(open, events).Some?
    ensures var r := FoldAll(f, clean, events);
            && (InOrder(events, f.cycle) <==> !r.aborted && r.skipped == f.skipped)
            && (InOrder(events, f.cycle) ==>
                r.stack == Texts(clean, Replay(open, events).value) && r.cycle == LastTime(events, f.cycle))
    decreases |events|
  {
    if events != [] {
      var e, rest := events[0], events[1..];
      var g := Fold(f, clean, e);
      SkippedGrows(g, clean, rest);
      if f.cycle <= e.at {
        FollowOne(clean, open, f, e);
        Follow(clean, After(open, e), g, rest);
      }
    }
  }

  lemma {:induction false} SkippedGrows(f: State, clean: Clean, events: seq<Event>)
    ensures FoldAll(f, clean, events).skipped >= f.skipped
    ensures f.aborted ==> FoldAll(f, clean, events).aborted
    decreases |events|
  {
    if events != [] {
      SkippedGrows(Fold(f, clean, events[0]), clean, events[1..]);
    }
  }

  /** For every instruction stream whatever: the folder takes all the lines without a warning or an
      error if and only if their times never go back, and then its stack is the label stack. */
  lemma FolderFollowsUnwinder(clean: Clean, xs: seq<Input>)
    ensures var e := AddAll([], xs);
            var f := FoldAll(Begin, clean, e.events);
            && (InOrder(e.events, 0) <==> !f.aborted && f.skipped == 0)
            && (InOrder(e.events, 0) ==> f.stack == Texts(clean, Labels(e.stack)) && f.cycle == LastTime(e.events, 0))
  {
    LinesNest([], xs);
    Follow(clean, Labels([]), Begin, AddAll([], xs).events);
  }

  ghost predicate AcceptedAtCycles(clean: Clean, cs: seq<nat>) {
    forall xs: seq<Input> | CyclesOf(xs) == cs && NamedBy(xs, AllButMisc) ::
      Accepted(FoldAll(Begin, clean, AddAll([], xs).events))
  }

  predicate Accepted(f: State) {
    !f.aborted && f.skipped == 0
  }

  /** The folder takes the lines of every stream without the reserved name, at given cycles, if and only
      if the cycles never go back. */
  lemma AcceptedExactlyWhenCyclesAre(clean: Clean, cs: seq<nat>)
    ensures AcceptedAtCycles(clean, cs) <==> Nondecreasing(cs)
  {
    OrderedExactlyWhenCyclesAre(cs);
    forall xs: seq<Input> ensures
      Accepted(FoldAll(Begin, clean, AddAll([], xs).events)) <==> InOrder(AddAll([], xs).events, 0)
    {
      FolderFollowsUnwinder(clean, xs);
    }
  }

  /** For how long the texts of the open labels were that stack, while the lines went by. */
  function TimeOpen(clean: Clean, open: seq<Label>, events: seq<Event>, from: nat, stack: seq<string>): int
    requires Replay(open, events).Some?
    decreases |events|
  {
    if events == [] then 0
    else
      var e := events[0];
      (if Texts(clean, open) == stack then e.at - from else 0)
        + TimeOpen(clean, After(open, e), events[1..], e.at, stack)
  }

  /** The texts of the open labels, and of those in the lines, name one label each. */
  ghost predicate PlainTexts(clean: Clean, open: seq<Label>, events: seq<Event>) {
    && (forall i | 0 <= i < |open| :: Plain(clean(open[i].pfx, open[i].name)))
    && (forall i | 0 <= i < |events| :: Plain(clean(events[i].pfx, events[i].name)))
  }

  /** And for how long they had that key. */
  function TimeOn(clean: Clean, open: seq<Label>, events: seq<Event>, from: nat, key: string): int
    requires Replay(open, events).Some?
    decreases |events|
  {
    if events == [] then 0
    else
      var e := events[0];
      (if Join(Texts(clean, open)) == key then e.at - from else 0)
        + TimeOn(clean, After(open, e), events[1..], e.at, key)
  }

  lemma PlainNext(clean: Clean, open: seq<Label>, events: seq<Event>)
    requires events != [] && Fits(open, events[0]) && PlainTexts(clean, open, events)
    ensures AllPlain(Texts(clean, open)) && PlainTexts(clean, After(open, events[0]), events[1..])
  {
  }

  /** Which is the same if the texts are plain. */
  lemma {:induction false} KeyTimeIsOpenTime(clean: Clean, open: seq<Label>, events: seq<Event>, from: nat,
                                             stack: seq<string>)
    requires Replay(open, events).Some? && PlainTexts(clean, open, events) && AllPlain(stack)
    ensures TimeOn(clean, open, events, from, Join(stack)) == TimeOpen(clean, open, events, from, stack)
    decreases |events|
  {
    if events != [] {
      var e := events[0];
      PlainNext(clean, open, events);
      KeyTimeIsOpenTime(clean, After(open, e), events[1..], e.at, stack);
      if Join(Texts(clean, open)) == Join(stack) {
        KeysDiffer(Texts(clean, open), stack);
      }
    }
  }

  /** A line charges the stack that was open until then. */
  lemma FoldChargesOpen(clean: Clean, open: seq<Label>, f: State, e: Event)
    requires !f.aborted && f.stack == Texts(clean, open) && f.cycle <= e.at && Fits(open, e)
    ensures Charged(f, Fold(f, clean, e), Join(Texts(clean, open)), e.at)
  {
    FollowOne(clean, open, f, e);
    if open != [] {
      assert Texts(clean, open)[|open| - 1] == clean(Last(open).pfx, Last(open).name);
    }
  }

  lemma SumCharged(clean: Clean, open: seq<Label>, f: State, e: Event, key: string)
    requires !f.aborted && f.stack == Texts(clean, open) && f.cycle <= e.at && Fits(open, e)
    ensures SumFor(Fold(f, clean, e).series, key)
         == SumFor(f.series, key) + if Join(Texts(clean, open)) == key then e.at - f.cycle else 0
  {
    FoldChargesOpen(clean, open, f, e);
    SeriesSnoc(f.series, Join(Texts(clean, open)), e.at - f.cycle);
  }

  lemma {:induction false} ChargesKeyTime(clean: Clean, open: seq<Label>, f: State, events: seq<Event>, key: string)
    requires !f.aborted && f.stack == Texts(clean, open) && Replay(open, events).Some? && InOrder(events, f.cycle)
    ensures SumFor(FoldAll(f, clean, events).series, key)
         == SumFor(f.series, key) + TimeOn(clean, open, events, f.cycle, key)
    decreases |events|
  {
    if events != [] {
      var e, rest := events[0], events[1..];
      FollowOne(clean, open, f, e);
      SumCharged(clean, open, f, e, key);
      ChargesKeyTime(clean, After(open, e), Fold(f, clean, e), rest, key);
    }
  }

  /** What is charged to the key of a stack is the time for which that stack was open. */
  lemma ChargesOpenTime(clean: Clean, open: seq<Label>, f: State, events: seq<Event>, stack: seq<string>)
    requires !f.aborted && f.stack == Texts(clean, open) && Replay(open, events).Some? && InOrder(events, f.cycle)
    requires PlainTexts(clean, open, events) && AllPlain(stack)
    ensures SumFor(FoldAll(f, clean, events).series, Join(stack))
         == SumFor(f.series, Join(stack)) + TimeOpen(clean, open, events, f.cycle, stack)
  {
    ChargesKeyTime(clean, open, f, events, Join(stack));
    KeyTimeIsOpenTime(clean, open, events, f.cycle, stack);
  }

  /** End to end: for any instruction stream with nondecreasing cycles and no function called
      USERSPACE_MISC, the folder accepts every line, never skips, underflows or aborts, ends with the
      unwinder's own stack, and has charged all the time up to the last line: to each stack exactly the
      time for which it was the unwinder's. */
  lemma UnwindThenFold(clean: Clean, xs: seq<Input>)
    requires Sane(xs, 0)
    ensures var e := AddAll([], xs);
            var f := FoldAll(Begin, clean, e.events);
            && Replay([], e.events) == Some(Labels(e.stack))
            && !f.aborted && f.skipped == 0
            && f.stack == Texts(clean, Labels(e.stack))
            && f.data.Total() == SumSeries(f.series) == f.cycle == LastTime(e.events, 0)
            && (forall key :: f.data.Get(key) == SumFor(f.series, key) == TimeOn(clean, [], e.events, 0, key))
            && (PlainTexts(clean, [], e.events) ==>
                  forall stack | AllPlain(stack) ::
                    f.data.Get(Join(stack)) == TimeOpen(clean, [], e.events, 0, stack))
  {
    LinesNest([], xs);
    LinesInOrder([], 0, xs, 0);
    FolderFollowsUnwinder(clean, xs);
    var e := AddAll([], xs);
    FoldAllKeepsBalance(Begin, clean, e.events);
    forall key ensures SumFor(FoldAll(Begin, clean, e.events).series, key) == TimeOn(clean, [], e.events, 0, key) {
      ChargesKeyTime(clean, [], Begin, e.events, key);
    }
    if PlainTexts(clean, [], e.events) {
      forall stack | AllPlain(stack)
        ensures TimeOn(clean, [], e.events, 0, Join(stack)) == TimeOpen(clean, [], e.events, 0, stack)
      {
        KeyTimeIsOpenTime(clean, [], e.events, 0, stack);
      }
    }
  }

  // ----- the script

  /** The lines the script writes, and whether it ends with exit(1). */
  datatype Output = Output(lines: seq<(string, int)>, failed: bool)

  function Written(f: State, time: bool): Output {
    if time then Output(PrintSeries(f.series, ""), f.aborted)
    else Output(if f.aborted then [] else PrintFolded(f.data, f.data.order, ""), f.aborted)
  }

  lemma PrintSeriesSnoc(series: seq<(string, int)>, x: (string, int))
    ensures PrintSeries(series + [x], "") == PrintSeries(series, "") + if x.0 == "" then [] else [x]
  {
    assert (series + [x])[..|series|] == series;
  }

  lemma {:induction false} AbortedStays(f: State, clean: Clean, events: seq<Event>)
    requires f.aborted
    ensures FoldAll(f, clean, events) == f
    decreases |events|
  {
    if events != [] {
      AbortedStays(f, clean, events[1..]);
    }
  }

  /** The script's globals.  In merging mode the counts go into `data`, which is printed at the end; in
      time mode (-t) they are printed at once. */
  class Script {
    const time: bool
    var stack: seq<string>
    var cycle: nat
    var data: Folded<string>
    var printed: seq<(string, int)>

    constructor (time: bool)
      ensures this.time == time && Holds(Begin)
    {
      this.time := time;
      stack, cycle, data, printed := [], 0, Folded([], map[]), [];
    }

    ghost predicate Holds(f: State)
      reads this
    {
      && !f.aborted && f.stack == stack && f.cycle == cycle
      && (if time then printed == PrintSeries(f.series, "") else printed == [] && data == f.data)
    }

    /** data.add */
    method AddCount(key: string, count: int, ghost series: seq<(string, int)>)
      modifies `data, `printed
      ensures data == if time then old(data) else old(data).Add(key, count)
      ensures time && old(printed) == PrintSeries(series, "") ==> printed == PrintSeries(series + [(key, count)], "")
      ensures !time ==> printed == old(printed)
    {
      if time {
        PrintSeriesSnoc(series, (key, count));
        if key != "" {
          printed := printed + [(key, count)];
        }
      } else {
        data := data.Add(key, count);
      }
    }

    /** The loop body, for a line that matches the pattern. */
    method TakeLine(e: Event, clean: Clean, ghost f: State) returns (failed: bool)
      requires Holds(f)
      modifies this
      ensures failed == Fold(f, clean, e).aborted
      ensures !failed ==> Holds(Fold(f, clean, e))
      ensures failed ==> printed == old(printed) && Fold(f, clean, e).series == f.series
    {
      failed := false;
      if e.at < cycle {
        return;
      }
      var key := Join(stack);
      var text := clean(e.pfx, e.name);
      if e.tag == Start {
        stack := stack + [text];
      } else if stack != [] {
        var start := stack[|stack| - 1];
        stack := stack[..|stack| - 1];
        if text != start {
          return true;
        }
      } else {
        return;
      }
      AddCount(key, e.at - cycle, f.series);
      cycle := e.at;
    }

    method Collapse(events: seq<Event>, clean: Clean) returns (out: Output)
      requires Holds(Begin)
      modifies this
      ensures out == Written(FoldAll(Begin, clean, events), time)
      // exit(1) comes before the merged counts are printed
      ensures out.failed == FoldAll(Begin, clean, events).aborted
      ensures out.failed && !time ==> out.lines == []
    {
      ghost var f := Begin;
      var n := 0;
      while n < |events|
        invariant 0 <= n <= |events|
        invariant FoldAll(f, clean, events[n..]) == FoldAll(Begin, clean, events)
        invariant Holds(f)
      {
        assert events[n..][1..] == events[n + 1..];
        var failed := TakeLine(events[n], clean, f);
        f := Fold(f, clean, events[n]);
        n := n + 1;
        if failed {
          AbortedStays(f, clean, events[n..]);
          return Output(printed, true);
        }
      }
      out := Output(if time then printed else PrintFolded(data, data.order, ""), false);
    }
  }
}
