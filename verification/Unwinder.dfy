/** The stack unwinder (stack_unwinder_t::add_instruction): a stack of labels that follows the
    instruction stream and writes a Start or an End line whenever it changes. */
module Unwinder {
  import opened Common

  const MISC: string := "USERSPACE_MISC"

  /** One call of add_instruction: `instr` is None when the binary or the address is unknown. */
  datatype Input = Input(instr: Option<Instr>, binary: string, known: bool, cycle: nat)
  {
    /** label_pfx is the binary's name only if the binary has an index. */
    function Prefix(): string { if known then binary else "" }
  }

  /** A LabelMeta, as a value. */
  datatype Frame = Frame(pfx: string, name: string, startCycle: nat, endCycle: nat, indent: nat, asm: bool)

  datatype Tag = Start | End

  /** A printed line. */
  datatype Event = Event(tag: Tag, indent: nat, pfx: string, name: string, at: nat)

  function PrePrint(f: Frame): Event { Event(Start, f.indent, f.pfx, f.name, f.startCycle) }

  function PostPrint(f: Frame): Event { Event(End, f.indent, f.pfx, f.name, f.endCycle) }

  datatype Effect = Effect(stack: seq<Frame>, events: seq<Event>)

  function Last<T>(s: seq<T>): T
    requires s != []
  {
    s[|s| - 1]
  }

  function Front<T>(s: seq<T>): seq<T>
    requires s != []
  {
    s[..|s| - 1]
  }

  function TouchTop(stack: seq<Frame>, cycle: nat): seq<Frame> {
    if stack == [] then [] else Front(stack) + [Last(stack).(endCycle := cycle)]
  }

  function PushFrame(stack: seq<Frame>, pfx: string, name: string, cycle: nat, asm: bool): Effect {
    var f := Frame(pfx, name, cycle, cycle, |stack| + 1, asm);
    Effect(stack + [f], [PrePrint(f)])
  }

  /** The unwinding loops: pop until the top is named `stop`, or everything if `stop` is None. */
  function Unwind(stack: seq<Frame>, stop: Option<string>, cycle: nat): Effect
    decreases |stack|
  {
    if stack == [] || (stop.Some? && Last(stack).name == stop.value) then Effect(stack, [])
    else
      var rest := Unwind(TouchTop(Front(stack), cycle), stop, cycle);
      Effect(rest.stack, [PostPrint(Last(stack))] + rest.events)
  }

  function Then(a: Effect, b: Effect): Effect {
    Effect(b.stack, a.events + b.events)
  }

  /** add_instruction for an address that no index knows. */
  function AddUnknown(stack: seq<Frame>, x: Input): Effect {
    if |stack| == 1 && stack[0].name == MISC then Effect(TouchTop(stack, x.cycle), [])
    else
      var emptied := Unwind(stack, None, x.cycle);
      Then(emptied, PushFrame(emptied.stack, x.Prefix(), MISC, x.cycle, false))
  }

  /** If the top is USERSPACE_MISC it goes first. */
  function DropMisc(stack: seq<Frame>): Effect {
    if stack != [] && Last(stack).name == MISC then Effect(Front(stack), [PostPrint(Last(stack))])
    else Effect(stack, [])
  }

  function AddKnown(stack: seq<Frame>, x: Input, i: Instr): Effect {
    if stack != [] && Last(stack).name == i.functionName then
      Effect(TouchTop(stack, x.cycle), [])
    else if stack != [] && i.inAsmSequence && Last(stack).asm then
      Then(Effect(Front(stack), [PostPrint(Last(stack))]),
           PushFrame(Front(stack), x.Prefix(), i.functionName, x.cycle, i.inAsmSequence))
    else if stack != [] && (i.isCallsite || !i.isFnEntry) then
      Unwind(stack, Some(i.functionName), x.cycle)
    else
      PushFrame(stack, x.Prefix(), i.functionName, x.cycle, i.inAsmSequence)
  }

  /** add_instruction. */
  function Add(stack: seq<Frame>, x: Input): Effect {
    match x.instr
    case None => AddUnknown(stack, x)
    case Some(i) => Then(DropMisc(stack), AddKnown(DropMisc(stack).stack, x, i))
  }

  function AddAll(stack: seq<Frame>, xs: seq<Input>): Effect
    decreases |xs|
  {
    if xs == [] then Effect(stack, [])
    else
      var first := Add(stack, xs[0]);
      Then(first, AddAll(first.stack, xs[1..]))
  }

  // ----- what one instruction does

  /** The lines that close some frames, the last first: it ended when it was last seen, the others end now. */
  function Closing(frames: seq<Frame>, cycle: nat): (lines: seq<Event>)
    ensures |lines| == |frames|
    ensures forall i | 0 <= i < |frames| ::
      var f := frames[|frames| - 1 - i];
      lines[i] == Event(End, f.indent, f.pfx, f.name, if i == 0 then f.endCycle else cycle)
  {
    seq(|frames|, i requires 0 <= i < |frames| =>
      var f := frames[|frames| - 1 - i];
      Event(End, f.indent, f.pfx, f.name, if i == 0 then f.endCycle else cycle))
  }

  /** The topmost frame of that name is number k; -1 if there is none. */
  ghost predicate Topmost(stack: seq<Frame>, name: string, k: int) {
    -1 <= k < |stack| && (k >= 0 ==> stack[k].name == name) && forall j | k < j < |stack| :: stack[j].name != name
  }

  /** The lowest `n` frames, of which the last is running at `cycle`. */
  ghost predicate Keeps(before: seq<Frame>, n: nat, cycle: nat, after: seq<Frame>) {
    && |after| == n <= |before|
    && (forall j | 0 <= j < n - 1 :: after[j] == before[j])
    && (n > 0 ==> after[n - 1] == before[n - 1].(endCycle := cycle))
  }

  ghost predicate StopsAt(stack: seq<Frame>, stop: Option<string>, k: int) {
    match stop
    case None => k == -1
    case Some(name) => Topmost(stack, name, k)
  }

  /** Unwinding closes the frames above the one it stops at, and that one is running again. */
  lemma {:induction false} UnwindMeans(stack: seq<Frame>, stop: Option<string>, cycle: nat, k: int)
    requires StopsAt(stack, stop, k) && k < |stack| - 1
    ensures Keeps(stack, k + 1, cycle, Unwind(stack, stop, cycle).stack)
    ensures Unwind(stack, stop, cycle).events == Closing(stack[k + 1..], cycle)
    decreases |stack|
  {
    var touched := TouchTop(Front(stack), cycle);
    var rest := Unwind(touched, stop, cycle);
    if k < |stack| - 2 {
      UnwindMeans(touched, stop, cycle, k);
    } else {
      assert rest == Effect(touched, []);
    }
    ClosingNext(stack, touched, k, cycle);
  }

  lemma ClosingNext(stack: seq<Frame>, touched: seq<Frame>, k: int, cycle: nat)
    requires -1 <= k < |stack| - 1 && touched == TouchTop(Front(stack), cycle)
    ensures Closing(stack[k + 1..], cycle) == [PostPrint(Last(stack))] + Closing(touched[k + 1..], cycle)
  {
  }

  /** A new frame on top, and its line. */
  ghost predicate Enters(before: seq<Frame>, x: Input, name: string, asm: bool, e: Effect) {
    var pfx := if x.known then x.binary else "";
    && e.stack == before + [Frame(pfx, name, x.cycle, x.cycle, |before| + 1, asm)]
    && e.events == [Event(Start, |before| + 1, pfx, name, x.cycle)]
  }

  /** An unknown address: if only USERSPACE_MISC is open it goes on, and otherwise it takes the place of
      everything. */
  lemma UnknownMeans(stack: seq<Frame>, x: Input)
    requires x.instr.None?
    ensures |stack| == 1 && stack[0].name == "USERSPACE_MISC" ==>
      Keeps(stack, 1, x.cycle, Add(stack, x).stack) && Add(stack, x).events == []
    ensures |stack| != 1 || stack[0].name != "USERSPACE_MISC" ==>
      exists entered ::
        && Enters([], x, "USERSPACE_MISC", false, entered)
        && Add(stack, x) == Effect(entered.stack, Closing(stack, x.cycle) + entered.events)
  {
    if |stack| != 1 || stack[0].name != MISC {
      if stack != [] {
        UnwindMeans(stack, None, x.cycle, -1);
        assert stack[0..] == stack;
      }
      assert Unwind(stack, None, x.cycle) == Effect([], Closing(stack, x.cycle));
      assert Enters([], x, MISC, false, PushFrame([], x.Prefix(), MISC, x.cycle, false));
    }
  }

  /** What a known instruction makes of the frames, once a USERSPACE_MISC on top is closed.  The function
      that was running goes on; an instruction of an asm sequence replaces one of an asm sequence; a call
      site, or an instruction that is not an entry, leaves the topmost frame of its function and what is
      below, or nothing; and an entry adds a frame. */
  ghost predicate Moves(stack: seq<Frame>, x: Input, i: Instr, e: Effect) {
    if stack != [] && stack[|stack| - 1].name == i.functionName then
      Keeps(stack, |stack|, x.cycle, e.stack) && e.events == []
    else if stack != [] && i.inAsmSequence && stack[|stack| - 1].asm then
      exists entered ::
        && Enters(stack[..|stack| - 1], x, i.functionName, true, entered)
        && e == Effect(entered.stack, Closing(stack[|stack| - 1..], x.cycle) + entered.events)
    else if stack != [] && (i.isCallsite || !i.isFnEntry) then
      forall k | Topmost(stack, i.functionName, k) ::
        Keeps(stack, k + 1, x.cycle, e.stack) && e.events == Closing(stack[k + 1..], x.cycle)
    else Enters(stack, x, i.functionName, i.inAsmSequence, e)
  }

  lemma AddKnownMeans(stack: seq<Frame>, x: Input, i: Instr)
    ensures Moves(stack, x, i, AddKnown(stack, x, i))
  {
    if stack == [] {
    } else if Last(stack).name == i.functionName {
    } else if i.inAsmSequence && Last(stack).asm {
      var entered := PushFrame(Front(stack), x.Prefix(), i.functionName, x.cycle, true);
      assert Enters(stack[..|stack| - 1], x, i.functionName, true, entered);
      assert Closing(stack[|stack| - 1..], x.cycle) == [PostPrint(Last(stack))];
    } else if i.isCallsite || !i.isFnEntry {
      forall k | Topmost(stack, i.functionName, k)
        ensures Keeps(stack, k + 1, x.cycle, AddKnown(stack, x, i).stack)
        ensures AddKnown(stack, x, i).events == Closing(stack[k + 1..], x.cycle)
      {
        UnwindMeans(stack, Some(i.functionName), x.cycle, k);
      }
    }
  }

  lemma KnownMeans(stack: seq<Frame>, x: Input)
    requires x.instr.Some?
    ensures var misc := stack != [] && stack[|stack| - 1].name == "USERSPACE_MISC";
            var below := if misc then stack[..|stack| - 1] else stack;
            exists e ::
              && Moves(below, x, x.instr.value, e)
              && Add(stack, x).stack == e.stack
              && Add(stack, x).events == (if misc then Closing(stack[|stack| - 1..], x.cycle) else []) + e.events
  {
    var dropped := DropMisc(stack);
    AddKnownMeans(dropped.stack, x, x.instr.value);
    assert Moves(dropped.stack, x, x.instr.value, AddKnown(dropped.stack, x, x.instr.value));
    if stack != [] {
      assert Closing(stack[|stack| - 1..], x.cycle) == [PostPrint(Last(stack))];
    }
  }

  /** So the frame on top has always been running until now. */
  lemma TopIsRunning(stack: seq<Frame>, x: Input)
    ensures Add(stack, x).stack != [] ==> Last(Add(stack, x).stack).endCycle == x.cycle
  {
    match x.instr
    case None => UnknownMeans(stack, x);
    case Some(i) =>
      var s := DropMisc(stack).stack;
      AddKnownMeans(s, x, i);
      var k := TopmostOf(s, i.functionName);
      assert Topmost(s, i.functionName, k);
  }

  lemma {:induction false} TopmostOf(stack: seq<Frame>, name: string) returns (k: int)
    ensures Topmost(stack, name, k)
  {
    k := -1;
    if stack != [] {
      if Last(stack).name == name {
        k := |stack| - 1;
      } else {
        k := TopmostOf(Front(stack), name);
      }
    }
  }

  // ----- what the printed lines mean

  /** What a reader of the lines knows of an open label. */
  datatype Label = Label(indent: nat, pfx: string, name: string)

  function LabelOf(f: Frame): Label { Label(f.indent, f.pfx, f.name) }

  function Labels(stack: seq<Frame>): (r: seq<Label>)
    ensures |r| == |stack|
  {
    seq(|stack|, i requires 0 <= i < |stack| => LabelOf(stack[i]))
  }

  /** Reads the lines back, ignoring their times: a Start opens a label one deeper than what is open, an
      End closes the innermost open label and names it in full.  None if the lines do not nest. */
  function Replay(open: seq<Label>, events: seq<Event>): Option<seq<Label>>
    decreases |events|
  {
    if events == [] then Some(open)
    else
      var e := events[0];
      var x := Label(e.indent, e.pfx, e.name);
      match e.tag
      case Start => if e.indent == |open| + 1 then Replay(open + [x], events[1..]) else None
      case End => if open != [] && Last(open) == x then Replay(Front(open), events[1..]) else None
  }

  /** Indent is depth. */
  ghost predicate Indented(stack: seq<Frame>) {
    forall i | 0 <= i < |stack| :: stack[i].indent == i + 1
  }

  /** The lines of an effect turn the labels of `stack` into those of the new stack. */
  ghost predicate Nests(stack: seq<Frame>, e: Effect) {
    Indented(e.stack) && Replay(Labels(stack), e.events) == Some(Labels(e.stack))
  }

  lemma {:induction false} ReplayAppend(open: seq<Label>, a: seq<Event>, b: seq<Event>)
    requires Replay(open, a).Some?
    ensures Replay(open, a + b) == Replay(Replay(open, a).value, b)
    decreases |a|
  {
    if a == [] {
      assert a + b == b;
    } else {
      assert (a + b)[1..] == a[1..] + b;
      var e := a[0];
      ReplayAppend(if e.tag == Start then open + [Label(e.indent, e.pfx, e.name)] else Front(open), a[1..], b);
    }
  }

  lemma ThenNests(stack: seq<Frame>, a: Effect, b: Effect)
    requires Nests(stack, a) && Nests(a.stack, b)
    ensures Nests(stack, Then(a, b))
  {
    ReplayAppend(Labels(stack), a.events, b.events);
  }

  lemma TouchKeepsLabels(stack: seq<Frame>, cycle: nat)
    ensures Labels(TouchTop(stack, cycle)) == Labels(stack)
    ensures Indented(stack) ==> Indented(TouchTop(stack, cycle))
  {
    if stack != [] {
      assert stack == Front(stack) + [Last(stack)];
    }
  }

  lemma TouchNests(stack: seq<Frame>, cycle: nat)
    requires Indented(stack)
    ensures Nests(stack, Effect(TouchTop(stack, cycle), []))
  {
    TouchKeepsLabels(stack, cycle);
  }

  lemma PushNests(stack: seq<Frame>, pfx: string, name: string, cycle: nat, asm: bool)
    requires Indented(stack)
    ensures Nests(stack, PushFrame(stack, pfx, name, cycle, asm))
  {
    var e := PushFrame(stack, pfx, name, cycle, asm);
    assert e.events[1..] == [];
    assert Labels(e.stack) == Labels(stack) + [LabelOf(Last(e.stack))];
  }

  function PopFrame(stack: seq<Frame>): Effect
    requires stack != []
  {
    Effect(Front(stack), [PostPrint(Last(stack))])
  }

  lemma PopNests(stack: seq<Frame>)
    requires stack != [] && Indented(stack)
    ensures Nests(stack, PopFrame(stack))
  {
    assert PopFrame(stack).events[1..] == [];
    assert Labels(Front(stack)) == Front(Labels(stack));
  }

  lemma {:induction false} UnwindNests(stack: seq<Frame>, stop: Option<string>, cycle: nat)
    requires Indented(stack)
    ensures Nests(stack, Unwind(stack, stop, cycle))
    decreases |stack|
  {
    if !(stack == [] || (stop.Some? && Last(stack).name == stop.value)) {
      PopNests(stack);
      TouchKeepsLabels(Front(stack), cycle);
      var touched := TouchTop(Front(stack), cycle);
      UnwindNests(touched, stop, cycle);
      ThenNests(stack, PopFrame(stack), Unwind(touched, stop, cycle));
    }
  }

  lemma AddUnknownNests(stack: seq<Frame>, x: Input)
    requires Indented(stack)
    ensures Nests(stack, AddUnknown(stack, x))
  {
    TouchNests(stack, x.cycle);
    var emptied := Unwind(stack, None, x.cycle);
    UnwindNests(stack, None, x.cycle);
    PushNests(emptied.stack, x.Prefix(), MISC, x.cycle, false);
    ThenNests(stack, emptied, PushFrame(emptied.stack, x.Prefix(), MISC, x.cycle, false));
  }

  lemma AddKnownNests(stack: seq<Frame>, x: Input, i: Instr)
    requires Indented(stack)
    ensures Nests(stack, AddKnown(stack, x, i))
  {
    TouchNests(stack, x.cycle);
    UnwindNests(stack, Some(i.functionName), x.cycle);
    PushNests(stack, x.Prefix(), i.functionName, x.cycle, i.inAsmSequence);
    if stack != [] {
      PopNests(stack);
      PushNests(Front(stack), x.Prefix(), i.functionName, x.cycle, i.inAsmSequence);
      ThenNests(stack, PopFrame(stack), PushFrame(Front(stack), x.Prefix(), i.functionName, x.cycle, i.inAsmSequence));
    }
  }

  lemma AddNests(stack: seq<Frame>, x: Input)
    requires Indented(stack)
    ensures Nests(stack, Add(stack, x))
  {
    match x.instr
    case None => AddUnknownNests(stack, x);
    case Some(i) =>
      var dropped := DropMisc(stack);
      if stack != [] {
        PopNests(stack);
      }
      AddKnownNests(dropped.stack, x, i);
      ThenNests(stack, dropped, AddKnown(dropped.stack, x, i));
  }

  /** For every instruction stream whatever, the printed lines nest, the labels they leave open are
      exactly the label stack, and a label's indent is its depth. */
  lemma {:induction false} LinesNest(stack: seq<Frame>, xs: seq<Input>)
    requires Indented(stack)
    ensures Nests(stack, AddAll(stack, xs))
    decreases |xs|
  {
    if xs != [] {
      var first := Add(stack, xs[0]);
      AddNests(stack, xs[0]);
      LinesNest(first.stack, xs[1..]);
      ThenNests(stack, first, AddAll(first.stack, xs[1..]));
    }
  }

  // ----- when the times on the lines go forward

  /** No line is earlier than the one before it. */
  predicate InOrder(events: seq<Event>, from: nat)
    decreases |events|
  {
    events == [] || (from <= events[0].at && InOrder(events[1..], events[0].at))
  }

  function LastTime(events: seq<Event>, from: nat): nat {
    if events == [] then from else Last(events).at
  }

  lemma {:induction false} InOrderAppend(a: seq<Event>, b: seq<Event>, from: nat)
    ensures InOrder(a + b, from) <==> InOrder(a, from) && InOrder(b, LastTime(a, from))
    ensures LastTime(a + b, from) == LastTime(b, LastTime(a, from))
    decreases |a|
  {
    if a == [] {
      assert a + b == b;
    } else {
      assert (a + b)[1..] == a[1..] + b;
      InOrderAppend(a[1..], b, a[0].at);
    }
  }

  /** USERSPACE_MISC is only ever alone. */
  ghost predicate MiscAlone(stack: seq<Frame>) {
    forall i | 0 <= i < |stack| && stack[i].name == MISC :: |stack| == 1
  }

  /** With the last line printed at `last`: the top label ends no earlier than that, and nothing is in
      the future.  Labels further down may have any end; they get a new one before they are printed. */
  ghost predicate Timely(stack: seq<Frame>, last: nat, now: nat) {
    && MiscAlone(stack)
    && last <= now && (stack != [] ==> last <= Last(stack).endCycle <= now)
  }

  /** The lines of an effect come in order after time `last`, and leave a timely stack. */
  ghost predicate Punctual(last: nat, e: Effect, now: nat) {
    InOrder(e.events, last) && Timely(e.stack, LastTime(e.events, last), now)
  }

  lemma ThenPunctual(last: nat, a: Effect, b: Effect, now: nat)
    requires InOrder(a.events, last) && Punctual(LastTime(a.events, last), b, now)
    ensures Punctual(last, Then(a, b), now)
  {
    InOrderAppend(a.events, b.events, last);
  }

  lemma TouchTimely(stack: seq<Frame>, last: nat, cycle: nat)
    requires MiscAlone(stack) && last <= cycle
    ensures Timely(TouchTop(stack, cycle), last, cycle)
  {
    if stack != [] {
      assert stack == Front(stack) + [Last(stack)];
    }
  }

  lemma PushPunctual(stack: seq<Frame>, last: nat, pfx: string, name: string, cycle: nat, asm: bool)
    requires last <= cycle && MiscAlone(stack) && (stack == [] || (name != MISC && Last(stack).name != MISC))
    ensures Punctual(last, PushFrame(stack, pfx, name, cycle, asm), cycle)
  {
    assert PushFrame(stack, pfx, name, cycle, asm).events[1..] == [];
    assert forall i | 0 <= i < |stack| :: stack[i].name != MISC;
  }

  lemma {:induction false} UnwindPunctual(stack: seq<Frame>, last: nat, stop: Option<string>, cycle: nat)
    requires Timely(stack, last, cycle)
    ensures Punctual(last, Unwind(stack, stop, cycle), cycle)
    ensures stop == None ==> Unwind(stack, stop, cycle).stack == []
    decreases |stack|
  {
    if !(stack == [] || (stop.Some? && Last(stack).name == stop.value)) {
      var touched := TouchTop(Front(stack), cycle);
      TouchTimely(Front(stack), Last(stack).endCycle, cycle);
      UnwindPunctual(touched, Last(stack).endCycle, stop, cycle);
      assert PopFrame(stack).events[1..] == [];
      ThenPunctual(last, PopFrame(stack), Unwind(touched, stop, cycle), cycle);
    }
  }

  lemma AddUnknownPunctual(stack: seq<Frame>, last: nat, x: Input)
    requires Timely(stack, last, x.cycle)
    ensures Punctual(last, AddUnknown(stack, x), x.cycle)
  {
    TouchTimely(stack, last, x.cycle);
    var emptied := Unwind(stack, None, x.cycle);
    UnwindPunctual(stack, last, None, x.cycle);
    PushPunctual([], LastTime(emptied.events, last), x.Prefix(), MISC, x.cycle, false);
    ThenPunctual(last, emptied, PushFrame([], x.Prefix(), MISC, x.cycle, false), x.cycle);
  }

  lemma AddKnownPunctual(stack: seq<Frame>, last: nat, x: Input, i: Instr)
    requires Timely(stack, last, x.cycle) && i.functionName != MISC
    requires stack == [] || Last(stack).name != MISC
    ensures Punctual(last, AddKnown(stack, x, i), x.cycle)
  {
    TouchTimely(stack, last, x.cycle);
    UnwindPunctual(stack, last, Some(i.functionName), x.cycle);
    PushPunctual(stack, last, x.Prefix(), i.functionName, x.cycle, i.inAsmSequence);
    if stack != [] {
      var popped := PopFrame(stack);
      assert popped.events[1..] == [];
      PushPunctual(Front(stack), LastTime(popped.events, last), x.Prefix(), i.functionName, x.cycle, i.inAsmSequence);
      var pushed := PushFrame(Front(stack), x.Prefix(), i.functionName, x.cycle, i.inAsmSequence);
      ThenPunctual(last, popped, pushed, x.cycle);
    }
  }

  lemma AddPunctual(stack: seq<Frame>, last: nat, x: Input)
    requires Timely(stack, last, x.cycle) && (x.instr.Some? ==> x.instr.value.functionName != MISC)
    ensures Punctual(last, Add(stack, x), x.cycle)
  {
    match x.instr
    case None => AddUnknownPunctual(stack, last, x);
    case Some(i) =>
      var dropped := DropMisc(stack);
      assert dropped.events == [] || dropped.events[1..] == [];
      AddKnownPunctual(dropped.stack, LastTime(dropped.events, last), x, i);
      ThenPunctual(last, dropped, AddKnown(dropped.stack, x, i), x.cycle);
  }

  /** Cycles that never go back, from `now` on, and no function called USERSPACE_MISC. */
  ghost predicate Sane(xs: seq<Input>, now: nat) {
    && (forall i | 0 <= i < |xs| ::
          now <= xs[i].cycle && (xs[i].instr.Some? ==> xs[i].instr.value.functionName != MISC))
    && (forall i, j | 0 <= i < j < |xs| :: xs[i].cycle <= xs[j].cycle)
  }

  /** For sane streams the lines are in order of time. */
  lemma {:induction false} LinesInOrder(stack: seq<Frame>, last: nat, xs: seq<Input>, now: nat)
    requires Timely(stack, last, now) && Sane(xs, now)
    ensures Punctual(last, AddAll(stack, xs), if xs == [] then now else Last(xs).cycle)
    decreases |xs|
  {
    if xs != [] {
      var first := Add(stack, xs[0]);
      AddPunctual(stack, last, xs[0]);
      LinesInOrder(first.stack, LastTime(first.events, last), xs[1..], xs[0].cycle);
      ThenPunctual(last, first, AddAll(first.stack, xs[1..]), if |xs| == 1 then xs[0].cycle else Last(xs[1..]).cycle);
    }
  }

  // ----- when they do not

  function CyclesOf(xs: seq<Input>): seq<nat> {
    seq(|xs|, i requires 0 <= i < |xs| => xs[i].cycle)
  }

  ghost predicate Nondecreasing(cs: seq<nat>) {
    forall i, j | 0 <= i < j < |cs| :: cs[i] <= cs[j]
  }

  /** The functions of the stream are called by these names. */
  ghost predicate NamedBy(xs: seq<Input>, names: iset<string>) {
    forall i | 0 <= i < |xs| && xs[i].instr.Some? :: xs[i].instr.value.functionName in names
  }

  ghost const AllButMisc: iset<string> := iset s: string | s != MISC

  /** Two functions that enter each other, at the given cycles: a Start line for each instruction. */
  function PingPong(cs: seq<nat>, ping: bool): (xs: seq<Input>)
    ensures |xs| == |cs| && NamedBy(xs, AllButMisc)
    ensures forall i | 0 <= i < |cs| :: xs[i].cycle == cs[i]
  {
    if cs == [] then []
    else [Input(Some(Instr(if ping then "f" else "g", true, false, false)), "", true, cs[0])] + PingPong(cs[1..], !ping)
  }

  lemma {:induction false} PingPongPrintsCycles(stack: seq<Frame>, cs: seq<nat>, ping: bool, from: nat)
    requires stack != [] ==> Last(stack).name == (if ping then "g" else "f")
    ensures InOrder(AddAll(stack, PingPong(cs, ping)).events, from) <==> Nondecreasing([from] + cs)
    decreases |cs|
  {
    if cs == [] {
    } else {
      var x := PingPong(cs, ping)[0];
      var first := Add(stack, x);
      assert PingPong(cs, ping)[1..] == PingPong(cs[1..], !ping);
      assert first.events[1..] == [] && first.events[0].at == cs[0];
      PingPongPrintsCycles(first.stack, cs[1..], !ping, cs[0]);
      InOrderAppend(first.events, AddAll(first.stack, PingPong(cs[1..], !ping)).events, from);
      NondecreasingCons(from, cs);
    }
  }

  lemma NondecreasingCons(from: nat, cs: seq<nat>)
    requires cs != []
    ensures Nondecreasing([from] + cs) <==> from <= cs[0] && Nondecreasing([cs[0]] + cs[1..])
  {
    assert [cs[0]] + cs[1..] == cs;
    assert forall i | 0 <= i < |cs| :: ([from] + cs)[i + 1] == cs[i];
    if from <= cs[0] && Nondecreasing(cs) {
      forall i, j | 0 <= i < j < |[from] + cs| ensures ([from] + cs)[i] <= ([from] + cs)[j] {
        assert cs[0] <= cs[j - 1];
      }
    } else if Nondecreasing([from] + cs) {
      assert ([from] + cs)[0] <= ([from] + cs)[1];
      forall i, j | 0 <= i < j < |cs| ensures cs[i] <= cs[j] {
        assert ([from] + cs)[i + 1] <= ([from] + cs)[j + 1];
      }
    }
  }

  lemma SaneStreams(xs: seq<Input>)
    requires NamedBy(xs, AllButMisc) && Nondecreasing(CyclesOf(xs))
    ensures Sane(xs, 0)
  {
    var cs := CyclesOf(xs);
    forall i, j | 0 <= i < j < |xs| ensures xs[i].cycle <= xs[j].cycle {
      assert cs[i] <= cs[j];
    }
  }

  ghost predicate OrderedAtCycles(cs: seq<nat>) {
    forall xs: seq<Input> | CyclesOf(xs) == cs && NamedBy(xs, AllButMisc) :: InOrder(AddAll([], xs).events, 0)
  }

  /** Cycles that never go back are exactly what it takes: at those cycles every stream without the
      reserved name prints in order, and at any others some stream does not. */
  lemma OrderedExactlyWhenCyclesAre(cs: seq<nat>)
    ensures OrderedAtCycles(cs) <==> Nondecreasing(cs)
  {
    if Nondecreasing(cs) {
      forall xs: seq<Input> | CyclesOf(xs) == cs && NamedBy(xs, AllButMisc) ensures InOrder(AddAll([], xs).events, 0) {
        SaneIsOrdered(xs);
      }
    } else {
      PingPongAtCycles(cs);
    }
  }

  lemma SaneIsOrdered(xs: seq<Input>)
    requires NamedBy(xs, AllButMisc) && Nondecreasing(CyclesOf(xs))
    ensures InOrder(AddAll([], xs).events, 0)
  {
    SaneStreams(xs);
    LinesInOrder([], 0, xs, 0);
  }

  lemma PingPongAtCycles(cs: seq<nat>)
    ensures var xs := PingPong(cs, true);
            && CyclesOf(xs) == cs && NamedBy(xs, AllButMisc)
            && (InOrder(AddAll([], xs).events, 0) <==> Nondecreasing(cs))
  {
    assert CyclesOf(PingPong(cs, true)) == cs;
    PingPongPrintsCycles([], cs, true, 0);
    NondecreasingFromZero(cs);
  }

  lemma NondecreasingFromZero(cs: seq<nat>)
    ensures Nondecreasing([0] + cs) <==> Nondecreasing(cs)
  {
    if cs != [] {
      NondecreasingCons(0, cs);
      assert [cs[0]] + cs[1..] == cs;
    }
  }

  ghost predicate OrderedWithNames(names: iset<string>) {
    forall xs: seq<Input> | Nondecreasing(CyclesOf(xs)) && NamedBy(xs, names) :: InOrder(AddAll([], xs).events, 0)
  }

  /** The reserved name is harmless exactly when no function, or every function, is called by it. */
  lemma OrderedExactlyWhenNamesAre(names: iset<string>)
    ensures OrderedWithNames(names) <==> MISC !in names || forall s <- names :: s == MISC
  {
    if MISC !in names {
      forall xs: seq<Input> | Nondecreasing(CyclesOf(xs)) && NamedBy(xs, names)
        ensures InOrder(AddAll([], xs).events, 0)
      {
        SaneIsOrdered(xs);
      }
    } else if forall s <- names :: s == MISC {
      forall xs: seq<Input> | Nondecreasing(CyclesOf(xs)) && NamedBy(xs, names)
        ensures InOrder(AddAll([], xs).events, 0)
      {
        var cs := CyclesOf(xs);
        forall i, j | 0 <= i < j < |xs| ensures xs[i].cycle <= xs[j].cycle {
          assert cs[i] <= cs[j];
        }
        OnlyMiscInOrder([], 0, xs, 0);
      }
    } else {
      var f :| f in names && f != MISC;
      ReservedNameGoesBack(f);
      var xs := ThreeCalls(f);
      assert Nondecreasing(CyclesOf(xs)) && NamedBy(xs, names);
    }
  }

  /** With no other name in use, the stack never holds two labels. */
  lemma {:induction false} OnlyMiscInOrder(stack: seq<Frame>, last: nat, xs: seq<Input>, now: nat)
    requires |stack| <= 1 && Timely(stack, last, now) && (stack != [] ==> Last(stack).name == MISC)
    requires forall i | 0 <= i < |xs| :: now <= xs[i].cycle
    requires forall i, j | 0 <= i < j < |xs| :: xs[i].cycle <= xs[j].cycle
    requires forall i | 0 <= i < |xs| && xs[i].instr.Some? :: xs[i].instr.value.functionName == MISC
    ensures InOrder(AddAll(stack, xs).events, last)
    decreases |xs|
  {
    if xs != [] {
      var first := Add(stack, xs[0]);
      OnlyMiscStep(stack, last, xs[0]);
      OnlyMiscInOrder(first.stack, LastTime(first.events, last), xs[1..], xs[0].cycle);
      InOrderAppend(first.events, AddAll(first.stack, xs[1..]).events, last);
    }
  }

  lemma OnlyMiscStep(stack: seq<Frame>, last: nat, x: Input)
    requires |stack| <= 1 && Timely(stack, last, x.cycle) && (stack != [] ==> Last(stack).name == MISC)
    requires x.instr.Some? ==> x.instr.value.functionName == MISC
    ensures var e := Add(stack, x);
            Punctual(last, e, x.cycle) && |e.stack| <= 1 && (e.stack != [] ==> Last(e.stack).name == MISC)
  {
    match x.instr
    case None => AddUnknownPunctual(stack, last, x);
    case Some(i) =>
      var dropped := DropMisc(stack);
      assert dropped.events == [] || dropped.events[1..] == [];
      var pushed := PushFrame([], x.Prefix(), i.functionName, x.cycle, i.inAsmSequence);
      PushPunctual([], LastTime(dropped.events, last), x.Prefix(), i.functionName, x.cycle, i.inAsmSequence);
      ThenPunctual(last, dropped, pushed, x.cycle);
  }

  lemma AddAllOfThree(x: Input, y: Input, z: Input)
    ensures var a := Add([], x);
            var b := Add(a.stack, y);
            AddAll([], [x, y, z]).events == a.events + (b.events + Add(b.stack, z).events)
  {
    var a := Add([], x);
    var b := Add(a.stack, y);
    var c := Add(b.stack, z);
    assert [x, y, z][1..] == [y, z] && [y, z][1..] == [z] && [z][1..] == [];
    assert AddAll(b.stack, [z]).events == c.events + [] == c.events;
    assert AddAll(a.stack, [y, z]).events == b.events + AddAll(b.stack, [z]).events;
  }

  function KnownInput(name: string, isFnEntry: bool, cycle: nat): Input {
    Input(Some(Instr(name, isFnEntry, false, false)), "bin", true, cycle)
  }

  /** A function is entered, then one with the reserved name, and then the latter goes on. */
  function ThreeCalls(f: string): seq<Input> {
    [KnownInput(f, true, 1), KnownInput(MISC, true, 5), KnownInput(MISC, false, 7)]
  }

  lemma ReservedNameOnTop(f: Frame, misc: Frame)
    requires misc.name == MISC && f.name != MISC
    ensures Add([f, misc], KnownInput(MISC, false, 7)).events == [PostPrint(misc), PostPrint(f)]
  {
    assert Front([f, misc]) == [f] && Front([f]) == [];
    assert Unwind(TouchTop([], 7), Some(MISC), 7).events == [];
    assert Unwind([f], Some(MISC), 7).events == [PostPrint(f)] + [];
  }

  /** Its second End line closes f at a time that has been passed. */
  lemma ReservedNameGoesBack(f: string)
    requires f != MISC
    ensures !InOrder(AddAll([], ThreeCalls(f)).events, 0)
  {
    var frame, misc := Frame("bin", f, 1, 1, 1, false), Frame("bin", MISC, 5, 5, 2, false);
    assert Add([], KnownInput(f, true, 1)) == Effect([frame], [PrePrint(frame)]);
    assert Add([frame], KnownInput(MISC, true, 5)) == Effect([frame, misc], [PrePrint(misc)]);
    ReservedNameOnTop(frame, misc);
    AddAllOfThree(KnownInput(f, true, 1), KnownInput(MISC, true, 5), KnownInput(MISC, false, 7));
    var last := [PostPrint(misc), PostPrint(frame)];
    InOrderAppend([PrePrint(frame)], [PrePrint(misc)] + last, 0);
    InOrderAppend([PrePrint(misc)], last, 1);
    assert last[1..] == [PostPrint(frame)];
  }

  // ----- the object

  /** The unwinding loop that started with stack `was` and file `file0` has come to `stack` and `file`. */
  ghost predicate Unwinding(was: seq<Frame>, file0: seq<Event>, stack: seq<Frame>, file: seq<Event>,
                            stop: Option<string>, cycle: nat) {
    && Unwind(stack, stop, cycle).stack == Unwind(was, stop, cycle).stack
    && file + Unwind(stack, stop, cycle).events == file0 + Unwind(was, stop, cycle).events
  }

  lemma UnwindingStep(was: seq<Frame>, file0: seq<Event>, stack: seq<Frame>, file: seq<Event>,
                      stop: Option<string>, cycle: nat)
    requires Unwinding(was, file0, stack, file, stop, cycle)
    requires stack != [] && !(stop.Some? && Last(stack).name == stop.value)
    ensures Unwinding(was, file0, TouchTop(Front(stack), cycle), file + [PostPrint(Last(stack))], stop, cycle)
  {
    var rest := Unwind(TouchTop(Front(stack), cycle), stop, cycle).events;
    assert file + [PostPrint(Last(stack))] + rest == file + ([PostPrint(Last(stack))] + rest);
  }

  /** stack_unwinder_t: the label stack, and the file the lines go to. */
  class StackUnwinder {
    var labelStack: seq<Frame>
    var stackFile: seq<Event>

    constructor ()
      ensures labelStack == [] && stackFile == []
    {
      labelStack, stackFile := [], [];
    }

    /** new LabelMeta, push_back, pre_print */
    method PushLabel(pfx: string, name: string, cycle: nat, asm: bool)
      modifies this
      ensures labelStack == PushFrame(old(labelStack), pfx, name, cycle, asm).stack
      ensures stackFile == old(stackFile) + PushFrame(old(labelStack), pfx, name, cycle, asm).events
    {
      var top := Frame(pfx, name, cycle, cycle, |labelStack| + 1, asm);
      labelStack := labelStack + [top];
      stackFile := stackFile + [PrePrint(top)];
    }

    /** pop_back, post_print, delete */
    method PopLabel()
      requires labelStack != []
      modifies this
      ensures labelStack == Front(old(labelStack))
      ensures stackFile == old(stackFile) + [PostPrint(Last(old(labelStack)))]
    {
      stackFile := stackFile + [PostPrint(labelStack[|labelStack| - 1])];
      labelStack := labelStack[..|labelStack| - 1];
    }

    method SetTopEnd(cycle: nat)
      requires labelStack != []
      modifies `labelStack
      ensures labelStack == TouchTop(old(labelStack), cycle)
    {
      var top := |labelStack| - 1;
      labelStack := labelStack[top := labelStack[top].(endCycle := cycle)];
      assert labelStack == TouchTop(old(labelStack), cycle);
    }

    /** The unwinding loops. */
    method UnwindTo(stop: Option<string>, cycle: nat)
      modifies this
      ensures labelStack == Unwind(old(labelStack), stop, cycle).stack
      ensures stackFile == old(stackFile) + Unwind(old(labelStack), stop, cycle).events
    {
      ghost var was := labelStack;
      while labelStack != [] && !(stop.Some? && labelStack[|labelStack| - 1].name == stop.value)
        invariant Unwinding(was, old(stackFile), labelStack, stackFile, stop, cycle)
        decreases |labelStack|
      {
        UnwindingStep(was, old(stackFile), labelStack, stackFile, stop, cycle);
        PopLabel();
        if labelStack != [] {
          SetTopEnd(cycle);
        }
      }
      assert stackFile + [] == stackFile;
    }

    method AddInstruction(x: Input)
      modifies this
      ensures labelStack == Add(old(labelStack), x).stack
      ensures stackFile == old(stackFile) + Add(old(labelStack), x).events
    {
      if x.instr.None? {
        if |labelStack| == 1 && labelStack[0].name == MISC {
          SetTopEnd(x.cycle);
        } else {
          UnwindTo(None, x.cycle);
          PushLabel(x.Prefix(), MISC, x.cycle, false);
        }
      } else {
        var i := x.instr.value;
        if labelStack != [] && labelStack[|labelStack| - 1].name == MISC {
          PopLabel();
        }
        AddKnownInstruction(x, i);
      }
    }

    method AddKnownInstruction(x: Input, i: Instr)
      modifies this
      ensures labelStack == AddKnown(old(labelStack), x, i).stack
      ensures stackFile == old(stackFile) + AddKnown(old(labelStack), x, i).events
    {
      if labelStack != [] && labelStack[|labelStack| - 1].name == i.functionName {
        SetTopEnd(x.cycle);
      } else if labelStack != [] && i.inAsmSequence && labelStack[|labelStack| - 1].asm {
        PopLabel();
        PushLabel(x.Prefix(), i.functionName, x.cycle, i.inAsmSequence);
      } else if labelStack != [] && (i.isCallsite || !i.isFnEntry) {
        UnwindTo(Some(i.functionName), x.cycle);
      } else {
        PushLabel(x.Prefix(), i.functionName, x.cycle, i.inAsmSequence);
      }
    }
  }
}
