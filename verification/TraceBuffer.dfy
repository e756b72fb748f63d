/** A trace buffer (trace_buffer_t): the ring that one file is parsed into, and the byte parser that
    fills it. */
module TraceBuffer {
  import opened Common
  import opened Digits
  import opened Fields

  /** The fields of rtl_step_t that generate_trace sets. */
  datatype TraceStep = TraceStep(
    val: bool, time: nat, pc: nat, except: bool, intrpt: bool, cause: int, hasW: bool, wdata: nat)

  const NoStep := TraceStep(false, 0, 0, false, false, 0, false, 0)

  /** (i + 1) % n */
  function Succ(i: nat, n: nat): (k: nat)
    requires i < n
    ensures k == if i + 1 == n then 0 else i + 1
  {
    if i + 1 == n then SelfMod(n); (i + 1) % n else (i + 1) % n
  }

  lemma SelfMod(n: nat)
    requires n > 0
    ensures n % n == 0
  {
  }

  /** The slots strictly between head and tail, going round. */
  function Slots<T>(s: seq<T>, head: nat, tail: nat): seq<T>
    requires head < |s| && tail < |s|
  {
    if head < tail then s[head + 1..tail] else s[head + 1..] + s[..tail]
  }

  lemma PushSlots<T>(s: seq<T>, head: nat, tail: nat, x: T)
    requires head < |s| && tail < |s| && head != tail && Succ(tail, |s|) != head
    ensures Slots(s[tail := x], head, Succ(tail, |s|)) == Slots(s, head, tail) + [x]
  {
  }

  lemma PopSlots<T>(s: seq<T>, head: nat, tail: nat)
    requires head < |s| && tail < |s| && head != tail && Succ(head, |s|) != tail
    ensures Slots(s, head, tail) == [s[Succ(head, |s|)]] + Slots(s, Succ(head, |s|), tail)
  {
  }

  lemma CountSlots<T>(s: seq<T>, head: nat, tail: nat)
    requires head < |s| && tail < |s| && head != tail
    ensures Slots(s, head, tail) == [] <==> Succ(head, |s|) == tail
    ensures |Slots(s, head, tail)| <= |s| - 2
    ensures |Slots(s, head, tail)| == |s| - 2 <==> Succ(tail, |s|) == head
  {
  }

  class Ring {
    const maxEntries: nat     // slots, one more than the constructor is asked for
    const trace: array<TraceStep>
    var head: nat
    var tail: nat
    var consumable: bool

    ghost predicate Valid()
      reads this
    {
      trace.Length == maxEntries >= 2 && head < maxEntries && tail < maxEntries && head != tail
    }

    /** The queued steps. */
    ghost function Contents(): seq<TraceStep>
      reads this, trace
      requires Valid()
    {
      Slots(trace[..], head, tail)
    }

    /** With no entries asked for, the tail starts outside the one slot there is. */
    constructor (entries: nat)
      ensures fresh(trace) && !consumable && trace.Length == maxEntries == entries + 1
      ensures Valid() <==> entries > 0
      ensures entries > 0 ==> Contents() == []
    {
      maxEntries := entries + 1;
      trace := new TraceStep[entries + 1](_ => NoStep);
      head, tail, consumable := 0, 1, false;
    }

    method Empty() returns (b: bool)
      requires Valid()
      ensures b <==> Contents() == []
    {
      CountSlots(trace[..], head, tail);
      b := Succ(head, maxEntries) == tail;
    }

    /** Full at two slots short of the array: a ring built for n entries holds n - 1. */
    method Full() returns (b: bool)
      requires Valid()
      ensures b <==> |Contents()| == maxEntries - 2
      ensures |Contents()| <= maxEntries - 2
    {
      CountSlots(trace[..], head, tail);
      b := head == Succ(tail, maxEntries);
    }

    method PushBack(x: TraceStep)
      requires Valid() && |Contents()| < maxEntries - 2
      modifies this`tail, trace
      ensures Valid() && Contents() == old(Contents()) + [x]
    {
      CountSlots(trace[..], head, tail);
      PushSlots(trace[..], head, tail, x);
      trace[tail] := x;
      tail := Succ(tail, maxEntries);
    }

    method PopFront() returns (x: TraceStep)
      requires Valid() && Contents() != []
      modifies this`head
      ensures Valid() && old(Contents()) == [x] + Contents()
    {
      CountSlots(trace[..], head, tail);
      PopSlots(trace[..], head, tail);
      head := Succ(head, maxEntries);
      x := trace[head];
    }
  }

  // ----- the byte parser, as functions of the text that is left

  /** A field ends at a space or a newline. */
  const Blanks: set<char> := {' ', '\n'}

  predicate Plain(s: seq<char>) { Without(s, Blanks) }

  /** What the digit loop makes of a field: the source's digits[] gives index 0 the base 0, so only
      the last character of the first field survives. */
  function FieldValue(index: nat, text: seq<char>): (n: nat)
    ensures n < U64
  {
    if index == 0 then (if text == [] then 0 else DigitValue(text[|text| - 1], Loose) % U64)
    else if index == 2 || index == 8 then Read64(text, Hex)
    else Read64(text, Loose)
  }

  function FieldAppend(index: nat, x: nat, c: char): (n: nat)
    ensures n < U64
  {
    if index == 0 then DigitValue(c, Loose) % U64
    else if index == 2 || index == 8 then Append(x, Hex, c) % U64
    else Append(x, Loose, c) % U64
  }

  lemma FieldSnoc(index: nat, text: seq<char>, c: char)
    ensures FieldValue(index, text + [c]) == FieldAppend(index, FieldValue(index, text), c)
  {
    ReadSnoc(text, c, Hex);
    ReadSnoc(text, c, Loose);
  }

  datatype Parsed<T> = Parsed(value: T, rest: seq<char>)

  type Members = m: seq<nat> | |m| == 9 witness [0, 0, 0, 0, 0, 0, 0, 0, 0]

  const Blank: Members := [0, 0, 0, 0, 0, 0, 0, 0, 0]

  /** The rest of a line, from field `index` on.  trace_members keeps what a short line does not
      overwrite.  None: a read past the buffer, or a tenth field. */
  function LineFrom(s: seq<char>, m: Members, index: nat): Option<Parsed<Members>>
    decreases |s|
  {
    if s == [] then None
    else if s[0] == '\n' then Some(Parsed(m, s[1..]))
    else if index >= 9 then None
    else
      match Cut(s, Blanks)
      case None => None
      case Some(f) =>
        CutMeans(s, Blanks);
        var m' := m[index := FieldValue(index, f.text)];
        if f.sep == ' ' then LineFrom(f.rest, m', index + 1) else Some(Parsed(m', f.rest))
  }

  lemma {:induction false} LineShorter(s: seq<char>, m: Members, index: nat)
    ensures LineFrom(s, m, index).Some? ==> |LineFrom(s, m, index).value.rest| < |s|
    decreases |s|
  {
    CutMeans(s, Blanks);
    if Cut(s, Blanks).Some? && index < 9 {
      var f := Cut(s, Blanks).value;
      LineShorter(f.rest, m[index := FieldValue(index, f.text)], index + 1);
    }
  }

  /** A line with these fields. */
  function Line(fields: seq<seq<char>>): seq<char>
    requires fields != []
  {
    if |fields| == 1 then fields[0] + ['\n'] else fields[0] + [' '] + Line(fields[1..])
  }

  /** Whatever a line's fields are, each goes to its own place, and what the line does not reach stays as an
      earlier line has left it; a tenth field is one too many. */
  lemma {:induction false} FieldsDecode(fields: seq<seq<char>>, extra: seq<char>, m: Members, index: nat)
    requires fields != [] && (forall i | 0 <= i < |fields| :: Plain(fields[i])) && fields[|fields| - 1] != []
    requires index <= 9
    ensures var r := LineFrom(Line(fields) + extra, m, index);
            && (r.Some? <==> index + |fields| <= 9)
            && (r.Some? ==> r.value.rest == extra && forall k | 0 <= k < 9 ::
                  r.value.value[k]
                  == if index <= k < index + |fields| then FieldValue(k, fields[k - index]) else m[k])
    decreases |fields|
  {
    var text := fields[0];
    if index == 9 {
      assert Line(fields) + extra != [] && (Line(fields) + extra)[0] != '\n';
    } else if |fields| == 1 {
      LastFieldPrinted(text, extra, m, index);
    } else {
      FieldPrinted(text, Line(fields[1..]), extra, m, index);
      assert Line(fields) + extra == text + [' '] + Line(fields[1..]) + extra;
      FieldsDecode(fields[1..], extra, m[index := FieldValue(index, text)], index + 1);
    }
  }

  function StepOf(m: Members): TraceStep {
    TraceStep(m[3] != 0, m[1], m[2], m[4] != 0, m[5] != 0, ToInt32(m[7]), m[6] != 0, m[8])
  }

  /** generate_trace with `left` bytes of the file still to go and room for `room` steps.  None: it
      would read past the buffer, write past the nine fields, or overfill the ring. */
  function StepsFrom(s: seq<char>, m: Members, left: int, room: nat): Option<seq<TraceStep>>
    decreases |s|
  {
    if left <= 0 then Some([])
    else if room == 0 then None
    else
      match LineFrom(s, m, 0)
      case None => None
      case Some(line) =>
        LineShorter(s, m, 0);
        match StepsFrom(line.rest, line.value, left - (|s| - |line.rest|), room - 1)
        case None => None
        case Some(steps) => Some([StepOf(line.value)] + steps)
  }

  // ----- printing

  function PrintFlag(b: bool): seq<char> { if b then "1" else "0" }

  /** A line of nine fields; the first is skipped by the reader and may be anything. */
  function PrintLine(tag: seq<char>, r: TraceStep): seq<char> {
    tag + [' '] + (Print(r.time, Dec) + [' '] + (Print(r.pc, Hex) + [' '] + PrintFlags(r)))
  }

  function PrintFlags(r: TraceStep): seq<char> {
    PrintFlag(r.val) + [' '] + (PrintFlag(r.except) + [' '] + (PrintFlag(r.intrpt) + [' ']
      + (PrintFlag(r.hasW) + [' '] + PrintLast(r))))
  }

  function PrintLast(r: TraceStep): seq<char> {
    Print(if r.cause < 0 then 0 else r.cause, Dec) + [' '] + (Print(r.wdata, Hex) + ['\n'])
  }

  ghost predicate Fits(r: TraceStep) {
    r.time < U64 && r.pc < U64 && r.wdata < U64 && 0 <= r.cause < 0x8000_0000
  }

  lemma FieldPrinted(text: seq<char>, later: seq<char>, extra: seq<char>, m: Members, index: nat)
    requires Plain(text) && index < 9
    ensures LineFrom(text + [' '] + later + extra, m, index)
         == LineFrom(later + extra, m[index := FieldValue(index, text)], index + 1)
  {
    CutAt(text, ' ', later + extra, Blanks);
    assert text + [' '] + later + extra == text + [' '] + (later + extra);
  }

  lemma LastFieldPrinted(text: seq<char>, extra: seq<char>, m: Members, index: nat)
    requires Plain(text) && text != [] && index < 9
    ensures LineFrom(text + ['\n'] + extra, m, index)
         == Some(Parsed(m[index := FieldValue(index, text)], extra))
  {
    CutAt(text, '\n', extra, Blanks);
  }

  lemma NumberField(n: nat, base: Base, index: nat)
    requires n < U64 && 0 < index < 9 && base == if index == 2 || index == 8 then Hex else Dec
    ensures Plain(Print(n, base)) && FieldValue(index, Print(n, base)) == n
  {
    PrintedWithout(n, base);
    LooseIsDecimal(n);
    Read64Print(n, if base == Hex then Hex else Loose);
  }

  lemma FlagField(b: bool, index: nat)
    requires 3 <= index < 8
    ensures Plain(PrintFlag(b)) && FieldValue(index, PrintFlag(b)) == Bit(b)
  {
    assert Read64("1", Loose) == 1 by { assert "1"[..0] == []; }
    assert Read64("0", Loose) == 0 by { assert "0"[..0] == []; }
  }

  function MembersOf(tag: seq<char>, r: TraceStep): Members
    requires Fits(r)
  {
    [FieldValue(0, tag), r.time, r.pc, Bit(r.val), Bit(r.except), Bit(r.intrpt), Bit(r.hasW), r.cause, r.wdata]
  }

  function Bit(b: bool): nat { if b then 1 else 0 }

  lemma FlagPrinted(b: bool, later: seq<char>, extra: seq<char>, m: Members, index: nat)
    requires 3 <= index < 8
    ensures LineFrom(PrintFlag(b) + [' '] + later + extra, m, index)
         == LineFrom(later + extra, m[index := Bit(b)], index + 1)
  {
    FlagField(b, index);
    FieldPrinted(PrintFlag(b), later, extra, m, index);
  }

  lemma FlagsPrinted(r: TraceStep, extra: seq<char>, m: Members)
    ensures LineFrom(PrintFlags(r) + extra, m, 3)
         == LineFrom(PrintLast(r) + extra,
                     m[3 := Bit(r.val)][4 := Bit(r.except)][5 := Bit(r.intrpt)][6 := Bit(r.hasW)], 7)
  {
    var t6 := PrintFlag(r.hasW) + [' '] + PrintLast(r);
    var t5 := PrintFlag(r.intrpt) + [' '] + t6;
    var t4 := PrintFlag(r.except) + [' '] + t5;
    FlagPrinted(r.val, t4, extra, m, 3);
    FlagPrinted(r.except, t5, extra, m[3 := Bit(r.val)], 4);
    FlagPrinted(r.intrpt, t6, extra, m[3 := Bit(r.val)][4 := Bit(r.except)], 5);
    FlagPrinted(r.hasW, PrintLast(r), extra, m[3 := Bit(r.val)][4 := Bit(r.except)][5 := Bit(r.intrpt)], 6);
  }

  lemma LastPrinted(r: TraceStep, extra: seq<char>, m: Members)
    requires Fits(r)
    ensures LineFrom(PrintLast(r) + extra, m, 7) == Some(Parsed(m[7 := r.cause][8 := r.wdata], extra))
  {
    NumberField(r.cause, Dec, 7);
    NumberField(r.wdata, Hex, 8);
    FieldPrinted(Print(r.cause, Dec), Print(r.wdata, Hex) + ['\n'], extra, m, 7);
    LastFieldPrinted(Print(r.wdata, Hex), extra, m[7 := r.cause], 8);
  }

  lemma HeadPrinted(tag: seq<char>, r: TraceStep, extra: seq<char>, m: Members)
    requires Plain(tag) && Fits(r)
    ensures LineFrom(PrintLine(tag, r) + extra, m, 0)
         == LineFrom(PrintFlags(r) + extra, m[0 := FieldValue(0, tag)][1 := r.time][2 := r.pc], 3)
  {
    var t2 := Print(r.pc, Hex) + [' '] + PrintFlags(r);
    NumberField(r.time, Dec, 1);
    NumberField(r.pc, Hex, 2);
    var m0: Members := m[0 := FieldValue(0, tag)];
    FieldPrinted(tag, Print(r.time, Dec) + [' '] + t2, extra, m, 0);
    FieldPrinted(Print(r.time, Dec), t2, extra, m0, 1);
    FieldPrinted(Print(r.pc, Hex), PrintFlags(r), extra, m0[1 := r.time], 2);
  }

  lemma LinePrinted(tag: seq<char>, r: TraceStep, extra: seq<char>, m: Members)
    requires Plain(tag) && Fits(r)
    ensures LineFrom(PrintLine(tag, r) + extra, m, 0) == Some(Parsed(MembersOf(tag, r), extra))
  {
    var m2: Members := m[0 := FieldValue(0, tag)][1 := r.time][2 := r.pc];
    var m6: Members := m2[3 := Bit(r.val)][4 := Bit(r.except)][5 := Bit(r.intrpt)][6 := Bit(r.hasW)];
    HeadPrinted(tag, r, extra, m);
    FlagsPrinted(r, extra, m2);
    LastPrinted(r, extra, m6);
    AllOverwritten(tag, r, m);
  }

  lemma AllOverwritten(tag: seq<char>, r: TraceStep, m: Members)
    requires Fits(r)
    ensures m[0 := FieldValue(0, tag)][1 := r.time][2 := r.pc][3 := Bit(r.val)][4 := Bit(r.except)]
             [5 := Bit(r.intrpt)][6 := Bit(r.hasW)][7 := r.cause][8 := r.wdata] == MembersOf(tag, r)
  {
  }

  lemma StepOfMembers(tag: seq<char>, r: TraceStep)
    requires Fits(r)
    ensures StepOf(MembersOf(tag, r)) == r
  {
  }

  /** A line that decodes to the step r, whatever follows it and whatever was decoded before. */
  ghost predicate Spells(line: seq<char>, r: TraceStep) {
    line != [] && forall extra: seq<char>, m: Members :: SpellsHere(line, r, extra, m)
  }

  ghost predicate SpellsHere(line: seq<char>, r: TraceStep, extra: seq<char>, m: Members) {
    var p := LineFrom(line + extra, m, 0);
    p.Some? && p.value.rest == extra && StepOf(p.value.value) == r
  }

  lemma PrintedLineSpells(tag: seq<char>, r: TraceStep)
    requires Plain(tag) && Fits(r)
    ensures Spells(PrintLine(tag, r), r)
  {
    forall extra: seq<char>, m: Members ensures SpellsHere(PrintLine(tag, r), r, extra, m) {
      LinePrinted(tag, r, extra, m);
      StepOfMembers(tag, r);
    }
  }

  function Concat(lines: seq<seq<char>>): seq<char> {
    if lines == [] then [] else lines[0] + Concat(lines[1..])
  }

  /** Decoding a file gives one step a line, whatever lies in the buffer behind the file.  It fails
      exactly when the ring has fewer free slots than the file has lines. */
  lemma {:induction false} FileDecodes(lines: seq<seq<char>>, rs: seq<TraceStep>, extra: seq<char>, m: Members,
                                       room: nat)
    requires |lines| == |rs| && forall i | 0 <= i < |rs| :: Spells(lines[i], rs[i])
    ensures StepsFrom(Concat(lines) + extra, m, |Concat(lines)|, room) == if |rs| <= room then Some(rs) else None
    decreases |rs|
  {
    if rs != [] {
      var line, later := lines[0], Concat(lines[1..]);
      assert line + later + extra == line + (later + extra);
      assert Spells(line, rs[0]) && SpellsHere(line, rs[0], later + extra, m);
      var m' := LineFrom(line + (later + extra), m, 0).value.value;
      OneLine(line, later, extra, m, m', room);
      if room > 0 {
        FileDecodes(lines[1..], rs[1..], extra, m', room - 1);
        assert [rs[0]] + rs[1..] == rs;
      }
    }
  }

  ghost predicate Printable(tags: seq<seq<char>>, rs: seq<TraceStep>) {
    |tags| == |rs| && forall i | 0 <= i < |rs| :: Plain(tags[i]) && Fits(rs[i])
  }

  function PrintFile(tags: seq<seq<char>>, rs: seq<TraceStep>): seq<char>
    requires |tags| == |rs|
  {
    Concat(seq(|rs|, i requires 0 <= i < |rs| => PrintLine(tags[i], rs[i])))
  }

  /** In particular, decoding undoes printing. */
  lemma DecodeUndoesPrint(tags: seq<seq<char>>, rs: seq<TraceStep>, extra: seq<char>, m: Members, room: nat)
    requires Printable(tags, rs)
    ensures var file := PrintFile(tags, rs);
            StepsFrom(file + extra, m, |file|, room) == if |rs| <= room then Some(rs) else None
  {
    var lines := seq(|rs|, i requires 0 <= i < |rs| => PrintLine(tags[i], rs[i]));
    forall i | 0 <= i < |rs| ensures Spells(lines[i], rs[i]) {
      PrintedLineSpells(tags[i], rs[i]);
    }
    FileDecodes(lines, rs, extra, m, room);
  }

  lemma OneLine(line: seq<char>, later: seq<char>, extra: seq<char>, m: Members, m': Members, room: nat)
    requires line != [] && LineFrom(line + (later + extra), m, 0) == Some(Parsed(m', later + extra))
    ensures StepsFrom(line + (later + extra), m, |line| + |later|, room)
         == if room == 0 then None else Prepend([StepOf(m')], StepsFrom(later + extra, m', |later|, room - 1))
  {
  }

  function Prepend(done: seq<TraceStep>, more: Option<seq<TraceStep>>): Option<seq<TraceStep>> {
    match more
    case None => None
    case Some(steps) => Some(done + steps)
  }

  // ----- the loops

  /** The digit loop. */
  method ScanField(buffer: seq<char>, i: nat, index: nat) returns (x: nat, k: nat)
    requires i <= |buffer|
    ensures i <= k <= |buffer| && x == FieldValue(index, buffer[i..k])
    ensures k < |buffer| ==> buffer[k] == ' ' || buffer[k] == '\n'
    ensures Cut(buffer[i..], Blanks)
         == if k == |buffer| then None else Some(Field(buffer[i..k], buffer[k], buffer[k + 1..]))
  {
    x, k := 0, i;
    ghost var text := [];
    assert FieldValue(index, []) == 0;
    while k < |buffer| && buffer[k] != ' ' && buffer[k] != '\n'
      invariant i <= k <= |buffer| && text == buffer[i..k] && Plain(text)
      invariant x == FieldValue(index, text)
    {
      FieldSnoc(index, text, buffer[k]);
      SliceSnoc(buffer, i, k);
      WithoutSnoc(text, buffer[k], Blanks);
      text := text + [buffer[k]];
      x, k := FieldAppend(index, x, buffer[k]), k + 1;
    }
    CutSlice(buffer, i, k, Blanks);
  }

  /** One turn of the field loop. */
  lemma LineStep(buffer: seq<char>, i: nat, k: nat, m: Members, index: nat)
    requires i < |buffer| && i <= k <= |buffer| && buffer[i] != '\n' && index < 9
    requires Cut(buffer[i..], Blanks)
          == if k == |buffer| then None else Some(Field(buffer[i..k], buffer[k], buffer[k + 1..]))
    requires k < |buffer| ==> buffer[k] == ' ' || buffer[k] == '\n'
    ensures var m' := m[index := FieldValue(index, buffer[i..k])];
            LineFrom(buffer[i..], m, index) ==
              if k == |buffer| then None
              else if buffer[k] == '\n' then Some(Parsed(m', buffer[k + 1..]))
              else LineFrom(buffer[k + 1..], m', index + 1)
  {
    assert buffer[i..][0] == buffer[i];
  }

  lemma LineEnds(buffer: seq<char>, i: nat, m: Members, index: nat)
    requires i <= |buffer| && (i == |buffer| || buffer[i] == '\n' || index >= 9)
    ensures LineFrom(buffer[i..], m, index) ==
              if i < |buffer| && buffer[i] == '\n' then Some(Parsed(m, buffer[i + 1..])) else None
  {
  }

  /** The field loop at some turn: what is left of the line decodes to the same. */
  ghost predicate InLine(buffer: seq<char>, i: nat, m: Members, index: nat, line: Option<Parsed<Members>>) {
    i <= |buffer| && LineFrom(buffer[i..], m, index) == line
  }

  /** One turn of the field loop.  `stop`: the buffer or the line has ended; `i` is then the next line. */
  method NextField(buffer: seq<char>, i0: nat, m0: Members, index: nat, ghost line: Option<Parsed<Members>>)
    returns (stop: bool, m: Members, i: nat)
    requires InLine(buffer, i0, m0, index, line) && i0 < |buffer| && buffer[i0] != '\n' && index < 9
    ensures i0 < i <= |buffer| + 1
    ensures !stop ==> InLine(buffer, i, m, index + 1, line)
    ensures stop ==> line == if i > |buffer| then None else Some(Parsed(m, buffer[i..]))
  {
    var x, k := ScanField(buffer, i0, index);
    LineStep(buffer, i0, k, m0, index);
    m, i := m0[index := x], k + 1;
    stop := k == |buffer| || buffer[k] == '\n';
  }

  /** The field loop: one line from position i, and where the next one starts. */
  method ScanLine(buffer: seq<char>, i0: nat, m0: Members) returns (ok: bool, m: Members, i: nat)
    requires i0 <= |buffer|
    ensures i <= |buffer|
    ensures LineFrom(buffer[i0..], m0, 0) == if ok then Some(Parsed(m, buffer[i..])) else None
  {
    m, i := m0, i0;
    var index := 0;
    ghost var line := LineFrom(buffer[i0..], m0, 0);
    while i < |buffer| && buffer[i] != '\n' && index < 9
      invariant InLine(buffer, i, m, index, line)
      decreases |buffer| - i
    {
      var stop;
      stop, m, i := NextField(buffer, i, m, index, line);
      if stop {
        return i <= |buffer|, m, if i <= |buffer| then i else |buffer|;
      }
      index := index + 1;
    }
    LineEnds(buffer, i, m, index);
    ok := i < |buffer| && buffer[i] == '\n';
    if ok {
      i := i + 1;
    }
  }

  /** generate_trace.  ok: it neither reads past the buffer, nor meets a tenth field, nor trips the
      assertion that the ring is not full. */
  method GenerateTrace(ring: Ring, buffer: seq<char>, bytesRead: nat)
    returns (ok: bool, ghost steps: Option<seq<TraceStep>>)
    requires ring.Valid()
    modifies ring, ring.trace
    ensures ring.Valid()
    ensures steps == StepsFrom(buffer, Blank, bytesRead, ring.maxEntries - 2 - |old(ring.Contents())|)
    ensures ok <==> steps.Some?
    ensures ok ==> ring.consumable && ring.Contents() == old(ring.Contents()) + steps.value
  {
    ghost var before := ring.Contents();
    ghost var done: seq<TraceStep> := [];
    CountSlots(ring.trace[..], ring.head, ring.tail);
    steps := StepsFrom(buffer, Blank, bytesRead, ring.maxEntries - 2 - |before|);
    SoFarStarts(buffer, bytesRead, ring.maxEntries - 2 - |before|, steps);
    var m, i := Blank, 0;
    assert before + done == before;
    while i < bytesRead
      invariant Generating(ring, before, done, buffer, i, m, bytesRead, steps)
      decreases |buffer| - i
    {
      ok, m, i, done := GenerateStep(ring, before, done, buffer, i, m, bytesRead, steps);
      if !ok {
        return false, steps;
      }
    }
    SoFarEnds(buffer, i, m, bytesRead, ring.maxEntries - 2 - |before + done|, done, steps);
    ring.consumable := true;
    ok := true;
  }

  /** The outer loop of generate_trace, with `done` pushed after what was there before. */
  ghost predicate Generating(ring: Ring, before: seq<TraceStep>, done: seq<TraceStep>, buffer: seq<char>, i: nat,
                             m: Members, bytesRead: nat, steps: Option<seq<TraceStep>>)
    reads ring, ring.trace
  {
    && ring.Valid() && ring.Contents() == before + done && |before + done| <= ring.maxEntries - 2
    && StepsSoFar(buffer, i, m, bytesRead, ring.maxEntries - 2 - |before + done|, done, steps)
  }

  method GenerateStep(ring: Ring, ghost before: seq<TraceStep>, ghost done0: seq<TraceStep>, buffer: seq<char>,
                      i0: nat, m0: Members, bytesRead: nat, ghost steps: Option<seq<TraceStep>>)
    returns (ok: bool, m: Members, i: nat, ghost done: seq<TraceStep>)
    requires Generating(ring, before, done0, buffer, i0, m0, bytesRead, steps) && i0 < bytesRead
    modifies ring`tail, ring.trace
    ensures ok ==> Generating(ring, before, done, buffer, i, m, bytesRead, steps) && i0 < i <= |buffer|
    ensures !ok ==> ring.Valid() && steps == None
  {
    m, i, done := m0, i0, done0;
    var full := ring.Full();
    if full {
      SoFarFull(buffer, i, m, bytesRead, done, steps);
      return false, m, i, done;
    }
    ok, m, i := ScanLine(buffer, i, m);
    SoFarStep(buffer, i0, m0, bytesRead, ring.maxEntries - 2 - |before + done|, done, steps, ok, m, i);
    if ok {
      ring.PushBack(StepOf(m));
      assert before + (done + [StepOf(m)]) == (before + done) + [StepOf(m)];
      done := done + [StepOf(m)];
    }
  }

  method Refill(ring: Ring, buffer: seq<char>, bytesRead: nat, ghost goal: Option<seq<TraceStep>>) returns (ok: bool)
    requires ring.Valid() && ring.Contents() == []
    requires StepsFrom(buffer, Blank, bytesRead, ring.maxEntries - 2) == goal
    modifies ring, ring.trace
    ensures ring.Valid() && (ok <==> goal.Some?)
    ensures ok ==> ring.consumable && ring.Contents() == goal.value
  {
    ghost var steps;
    ok, steps := GenerateTrace(ring, buffer, bytesRead);
    PrependNothing(steps);
  }

  /** Refilling a drained ring with a printed file leaves exactly the file's steps in it, if and only
      if the file has at most two lines fewer than the ring has slots. */
  method RefillDrained(ring: Ring, tags: seq<seq<char>>, rs: seq<TraceStep>, extra: seq<char>) returns (ok: bool)
    requires ring.Valid() && ring.Contents() == [] && Printable(tags, rs)
    modifies ring, ring.trace
    ensures ok <==> |rs| <= ring.maxEntries - 2
    ensures ok ==> ring.Valid() && ring.consumable && ring.Contents() == rs
  {
    var file := PrintFile(tags, rs);
    DecodeUndoesPrint(tags, rs, extra, Blank, ring.maxEntries - 2);
    ok := Refill(ring, file + extra, |file|, if |rs| <= ring.maxEntries - 2 then Some(rs) else None);
  }

  ghost predicate StepsSoFar(buffer: seq<char>, i: nat, m: Members, bytesRead: nat, room: nat,
                             done: seq<TraceStep>, goal: Option<seq<TraceStep>>) {
    i <= |buffer| && goal == Prepend(done, StepsFrom(buffer[i..], m, bytesRead - i, room))
  }

  lemma SoFarStarts(buffer: seq<char>, bytesRead: nat, room: nat, goal: Option<seq<TraceStep>>)
    requires goal == StepsFrom(buffer, Blank, bytesRead, room)
    ensures StepsSoFar(buffer, 0, Blank, bytesRead, room, [], goal)
  {
    assert buffer[0..] == buffer;
    PrependNothing(goal);
  }

  lemma SoFarFull(buffer: seq<char>, i: nat, m: Members, bytesRead: nat, done: seq<TraceStep>,
                  goal: Option<seq<TraceStep>>)
    requires StepsSoFar(buffer, i, m, bytesRead, 0, done, goal) && i < bytesRead
    ensures goal == None
  {
  }

  lemma SoFarEnds(buffer: seq<char>, i: nat, m: Members, bytesRead: nat, room: nat, done: seq<TraceStep>,
                  goal: Option<seq<TraceStep>>)
    requires StepsSoFar(buffer, i, m, bytesRead, room, done, goal) && i >= bytesRead
    ensures goal == Some(done)
  {
    assert done + [] == done;
  }

  lemma SoFarStep(buffer: seq<char>, i: nat, m: Members, bytesRead: nat, room: nat, done: seq<TraceStep>,
                  goal: Option<seq<TraceStep>>, ok: bool, m': Members, k: nat)
    requires StepsSoFar(buffer, i, m, bytesRead, room, done, goal) && i < bytesRead && room > 0 && k <= |buffer|
    requires LineFrom(buffer[i..], m, 0) == if ok then Some(Parsed(m', buffer[k..])) else None
    ensures !ok ==> goal == None
    ensures ok ==> k > i && StepsSoFar(buffer, k, m', bytesRead, room - 1, done + [StepOf(m')], goal)
  {
    LineShorter(buffer[i..], m, 0);
    if ok {
      PrependOne(done, StepOf(m'), StepsFrom(buffer[k..], m', bytesRead - k, room - 1));
    }
  }

  lemma PrependNothing(more: Option<seq<TraceStep>>)
    ensures Prepend([], more) == more
  {
    if more.Some? {
      assert [] + more.value == more.value;
    }
  }

  lemma PrependOne(done: seq<TraceStep>, x: TraceStep, more: Option<seq<TraceStep>>)
    ensures Prepend(done + [x], more) == Prepend(done, Prepend([x], more))
  {
    if more.Some? {
      assert done + [x] + more.value == done + ([x] + more.value);
    }
  }
}
