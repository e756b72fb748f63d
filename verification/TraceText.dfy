/** The text form of a committed instruction: the reformatter that writes it
    (reformat_cospike_trace.cc, string_parser.cc) and the parser that reads it back
    (sim_lib_t::parse_line_into_rtltrace). */
module TraceText {
  import opened Common
  import opened Digits
  import opened Fields

  datatype Record = Record(
    val: bool, except: bool, intrpt: bool, hasW: bool, cause: int, time: nat, pc: nat, wdata: nat)
  {
    ghost predicate Fits() {
      -0x8000_0000 <= cause < 0x8000_0000 && time < U64 && pc < U64 && wdata < U64
    }
  }

  // ----- writing

  function PrintBool(b: bool): char { if b then '1' else '0' }

  /** %d */
  function PrintInt(n: int): seq<char> {
    if n < 0 then "-" + Print(-n, Dec) else Print(n, Dec)
  }

  /** "%d %d %d %d %d %lu %lx %lx\n" */
  function PrintRecord(r: Record): seq<char> {
    [PrintBool(r.val), ' ', PrintBool(r.except), ' ', PrintBool(r.intrpt), ' ', PrintBool(r.hasW), ' ']
    + PrintInt(r.cause) + " " + Print(r.time, Dec) + " " + Print(r.pc, Hex) + " " + Print(r.wdata, Hex) + "\n"
  }

  // ----- reading

  // parse_line_into_rtltrace, as functions of the text that is left, one a field.  None: the loop
  // would run off the end.

  function Parse(s: seq<char>): Option<Record> {
    if |s| <= 8 then None
    else ParseCause(s[8..], Record(s[0] == '1', s[2] == '1', s[4] == '1', s[6] == '1', 0, 0, 0, 0))
  }

  function ParseCause(s: seq<char>, r: Record): Option<Record> {
    var cut := Cut(s, {' '});
    if cut.None? then None else ParseTime(cut.value.rest, r.(cause := Read32(cut.value.text, Dec)))
  }

  function ParseTime(s: seq<char>, r: Record): Option<Record> {
    var cut := Cut(s, {' '});
    if cut.None? then None else ParsePc(cut.value.rest, r.(time := Read64(cut.value.text, Dec)))
  }

  function ParsePc(s: seq<char>, r: Record): Option<Record> {
    var cut := Cut(s, {' '});
    if cut.None? then None else ParseWdata(cut.value.rest, r.(pc := Read64(cut.value.text, Hex)))
  }

  function ParseWdata(s: seq<char>, r: Record): Option<Record> {
    var cut := Cut(s, {'\n'});
    if cut.None? then None else Some(r.(wdata := Read64(cut.value.text, Hex)))
  }

  /** The text from i to k has been read. */
  ghost predicate Reading(s: seq<char>, i: nat, k: nat, stop: char, base: Base, x: int, wide: nat) {
    && i <= k <= |s| && Without(s[i..k], {stop})
    && x == Read32(s[i..k], base) && wide == Read64(s[i..k], base)
  }

  lemma ReadingStep(s: seq<char>, i: nat, k: nat, stop: char, base: Base, x: int, wide: nat)
    requires Reading(s, i, k, stop, base, x, wide) && k < |s| && s[k] != stop
    ensures Reading(s, i, k + 1, stop, base, Wrap32(Append(x, base, s[k])), Append(wide, base, s[k]) % U64)
  {
    ReadSnoc(s[i..k], s[k], base);
    SliceSnoc(s, i, k);
    WithoutSnoc(s[i..k], s[k], {stop});
  }

  /** One `for` loop of parse_line_into_rtltrace: accumulate up to `stop`, in an int and in 64 bits. */
  method ReadUpTo(s: seq<char>, i: nat, stop: char, base: Base) returns (x: int, wide: nat, k: nat)
    requires i <= |s|
    ensures i <= k <= |s|
    ensures Cut(s[i..], {stop}) == if k == |s| then None else Some(Field(s[i..k], stop, s[k + 1..]))
    ensures x == Read32(s[i..k], base) && wide == Read64(s[i..k], base)
  {
    x, wide, k := 0, 0, i;
    while k < |s| && s[k] != stop
      invariant Reading(s, i, k, stop, base, x, wide)
    {
      ReadingStep(s, i, k, stop, base, x, wide);
      x, wide, k := Wrap32(Append(x, base, s[k])), Append(wide, base, s[k]) % U64, k + 1;
    }
    CutSlice(s, i, k, {stop});
  }

  /** sim_lib_t::parse_line_into_rtltrace. */
  method ParseLine(s: seq<char>) returns (r: Option<Record>)
    ensures r == Parse(s)
  {
    if |s| <= 8 {
      return None;
    }
    var step := Record(s[0] == '1', s[2] == '1', s[4] == '1', s[6] == '1', 0, 0, 0, 0);
    var x, wide, cur := ReadUpTo(s, 8, ' ', Dec);
    if cur == |s| {
      return None;
    }
    r := ParseTail(s, cur + 1, step.(cause := x));
  }

  /** The last three loops. */
  method ParseTail(s: seq<char>, i: nat, step0: Record) returns (r: Option<Record>)
    requires i <= |s|
    ensures r == ParseTime(s[i..], step0)
  {
    var step := step0;
    var x, wide, cur := ReadUpTo(s, i, ' ', Dec);
    if cur == |s| {
      return None;
    }
    step := step.(time := wide);
    ghost var goal := ParsePc(s[cur + 1..], step);
    x, wide, cur := ReadUpTo(s, cur + 1, ' ', Hex);
    if cur == |s| {
      return None;
    }
    step := step.(pc := wide);
    assert goal == ParseWdata(s[cur + 1..], step);
    x, wide, cur := ReadUpTo(s, cur + 1, '\n', Hex);
    if cur == |s| {
      return None;
    }
    r := Some(step.(wdata := wide));
  }

  /** What the parser makes of a printed record, whatever the sign of its cause. */
  lemma ParsePrinted(r: Record, rest: seq<char>)
    requires r.Fits()
    ensures Parse(PrintRecord(r) + rest) == Some(r.(cause := Read32(PrintInt(r.cause), Dec)))
  {
    var f1, f2, f3, f4 := PrintInt(r.cause), Print(r.time, Dec), Print(r.pc, Hex), Print(r.wdata, Hex);
    var t4 := f4 + ['\n'] + rest;
    var t3 := f3 + [' '] + t4;
    var t2 := f2 + [' '] + t3;
    PrintedWithout(if r.cause < 0 then -r.cause else r.cause, Dec);
    CutAt(f1, ' ', t2, {' '});
    ParsePrintedTail(r.(cause := Read32(f1, Dec)), rest);
    PrintedIs(r, rest, f1 + [' '] + t2);
  }

  lemma ParsePrintedTail(r: Record, rest: seq<char>)
    requires r.time < U64 && r.pc < U64 && r.wdata < U64
    ensures var t := Print(r.time, Dec) + [' '] + (Print(r.pc, Hex) + [' '] + (Print(r.wdata, Hex) + ['\n'] + rest));
            forall q: Record | q.(time := r.time, pc := r.pc, wdata := r.wdata) == r :: ParseTime(t, q) == Some(r)
  {
    var t4 := Print(r.wdata, Hex) + ['\n'] + rest;
    var t3 := Print(r.pc, Hex) + [' '] + t4;
    PrintedWithout(r.time, Dec);
    PrintedWithout(r.pc, Hex);
    PrintedWithout(r.wdata, Hex);
    CutAt(Print(r.time, Dec), ' ', t3, {' '});
    CutAt(Print(r.pc, Hex), ' ', t4, {' '});
    CutAt(Print(r.wdata, Hex), '\n', rest, {'\n'});
    Read64Print(r.time, Dec);
    Read64Print(r.pc, Hex);
    Read64Print(r.wdata, Hex);
  }

  function PrintFlags(r: Record): (s: seq<char>)
    ensures |s| == 8
  {
    [PrintBool(r.val), ' ', PrintBool(r.except), ' ', PrintBool(r.intrpt), ' ', PrintBool(r.hasW), ' ']
  }

  lemma PrintedIs(r: Record, rest: seq<char>, t1: seq<char>)
    requires t1 == PrintInt(r.cause) + [' '] + (Print(r.time, Dec) + [' ']
                     + (Print(r.pc, Hex) + [' '] + (Print(r.wdata, Hex) + ['\n'] + rest)))
    ensures Parse(PrintRecord(r) + rest) == ParseCause(t1, Record(r.val, r.except, r.intrpt, r.hasW, 0, 0, 0, 0))
  {
    AfterFlags(r, rest, t1);
    var s := PrintFlags(r) + t1;
    assert s[8..] == t1;
    assert s[0] == PrintBool(r.val) && s[2] == PrintBool(r.except);
    assert s[4] == PrintBool(r.intrpt) && s[6] == PrintBool(r.hasW);
  }

  lemma AfterFlags(r: Record, rest: seq<char>, t1: seq<char>)
    requires t1 == PrintInt(r.cause) + [' '] + (Print(r.time, Dec) + [' ']
                     + (Print(r.pc, Hex) + [' '] + (Print(r.wdata, Hex) + ['\n'] + rest)))
    ensures PrintRecord(r) + rest == PrintFlags(r) + t1
  {
  }

  /** Printing then parsing gives the record back exactly when its cause is not negative, or is the one
      negative int that the wrapped sum happens to hit: the parser takes a minus sign for a digit. */
  lemma RoundTripExactlyWhen(r: Record, rest: seq<char>)
    requires r.Fits()
    ensures Parse(PrintRecord(r) + rest) == Some(r) <==> r.cause >= 0 || r.cause == WRAPPED
  {
    ParsePrinted(r, rest);
    CauseReadsBackExactlyWhen(r.cause);
  }

  lemma CauseReadsBackExactlyWhen(cause: int)
    requires -0x8000_0000 <= cause < 0x8000_0000
    ensures Read32(PrintInt(cause), Dec) == cause <==> cause >= 0 || cause == WRAPPED
  {
    Read32Is(PrintInt(cause), Dec);
    if cause >= 0 {
      ReadPrint(cause, Dec);
    } else {
      NegativeReadsBackExactlyWhen(-cause);
    }
  }

  lemma NegativeCauseIsLost()
    ensures var r := Record(true, false, true, false, -1, 0, 0, 0);
            Parse(PrintRecord(r)) == Some(r.(cause := -29))
  {
    var r := Record(true, false, true, false, -1, 0, 0, 0);
    ParsePrinted(r, []);
    assert PrintRecord(r) + [] == PrintRecord(r);
    MinusOne();
  }

  lemma MinusOne()
    ensures Read32(PrintInt(-1), Dec) == -29
  {
    Read32Is(PrintInt(-1), Dec);
    ReadAfterMinus(Print(1, Dec));
    ReadPrint(1, Dec);
    assert |Print(1, Dec)| == 1 && Pow10(1) == 10 * Pow10(0);
  }

  // ----- the reformatter

  /** fast_split: at most `max` words, 0 for no limit.  What follows the last word is dropped. */
  function Split(s: seq<char>, c: char, max: nat): (words: seq<seq<char>>)
    ensures words != []
    decreases |s|
  {
    match Cut(s, {c})
    case None => [s]
    case Some(cut) =>
      CutMeans(s, {c});
      [cut.text] + if max == 1 then [] else Split(cut.rest, c, if max == 0 then 0 else max - 1)
  }

  function Join(words: seq<seq<char>>, c: char): seq<char> {
    if words == [] then [] else if |words| == 1 then words[0] else words[0] + [c] + Join(words[1..], c)
  }

  /** Without a limit, splitting loses nothing and leaves no delimiter behind. */
  lemma {:induction false} SplitJoin(s: seq<char>, c: char)
    ensures Join(Split(s, c, 0), c) == s
    ensures forall w | w in Split(s, c, 0) :: c !in w
    decreases |s|
  {
    CutMeans(s, {c});
    if Cut(s, {c}).Some? {
      var cut := Cut(s, {c}).value;
      SplitJoin(cut.rest, c);
      assert Split(s, c, 0) == [cut.text] + Split(cut.rest, c, 0);
      assert Split(s, c, 0)[1..] == Split(cut.rest, c, 0);
    }
  }

  /** A limit only cuts the list of words short. */
  lemma {:induction false} SplitLimit(s: seq<char>, c: char, max: nat)
    requires max > 0
    ensures Split(s, c, max) == Split(s, c, 0)[..if max < |Split(s, c, 0)| then max else |Split(s, c, 0)|]
    decreases |s|
  {
    CutMeans(s, {c});
    if Cut(s, {c}).Some? && max > 1 {
      SplitLimit(Cut(s, {c}).value.rest, c, max - 1);
    }
  }

  /** s.find_first_of(delim, start), with the length for npos. */
  method FindFirstOf(s: seq<char>, start: nat, delim: char) returns (end: nat)
    requires start <= |s|
    ensures start <= end <= |s| && delim !in s[start..end] && (end < |s| ==> s[end] == delim)
  {
    end := start;
    while end < |s| && s[end] != delim
      invariant start <= end <= |s| && delim !in s[start..end]
    {
      end := end + 1;
    }
  }

  /** Words still allowed after one more; 0 is no limit. */
  function Fewer(limit: nat): nat { if limit == 0 then 0 else limit - 1 }

  lemma SplitStep(s: seq<char>, start: nat, end: nat, c: char, limit: nat)
    requires start <= end <= |s| && c !in s[start..end] && (end < |s| ==> s[end] == c)
    ensures Split(s[start..], c, limit)
         == [s[start..end]] + Remaining(s, end, c, limit)
  {
    CutSlice(s, start, end, {c});
    if end == |s| {
      assert s[start..end] == s[start..];
    }
  }

  lemma RemainingStep(s: seq<char>, last: nat, end: nat, c: char, limit: nat)
    requires last < end <= |s| && limit != 1
    requires c !in s[last + 1..end] && (end < |s| ==> s[end] == c)
    ensures Remaining(s, last, c, limit) == [s[last + 1..end]] + Remaining(s, end, c, Fewer(limit))
  {
    SplitStep(s, last + 1, end, c, Fewer(limit));
  }

  /** The words collected so far and those still to come. */
  ghost predicate Splitting(s: seq<char>, c: char, max: nat, elems: seq<seq<char>>, end: nat, limit: nat) {
    end <= |s| && Split(s, c, max) == elems + Remaining(s, end, c, limit)
  }

  lemma SplittingStarts(s: seq<char>, c: char, max: nat, end: nat)
    requires end <= |s| && c !in s[..end] && (end < |s| ==> s[end] == c)
    ensures Splitting(s, c, max, [s[..end]], end, max)
  {
    SplitStep(s, 0, end, c, max);
    assert s[0..] == s && s[0..end] == s[..end];
  }

  lemma SplittingGoesOn(s: seq<char>, c: char, max: nat, elems: seq<seq<char>>, last: nat, end: nat, limit: nat)
    requires Splitting(s, c, max, elems, last, limit) && last < end <= |s| && limit != 1
    requires c !in s[last + 1..end] && (end < |s| ==> s[end] == c)
    ensures Splitting(s, c, max, elems + [s[last + 1..end]], end, Fewer(limit))
  {
    RemainingStep(s, last, end, c, limit);
    Regroup(elems, [s[last + 1..end]], Remaining(s, end, c, Fewer(limit)));
  }

  lemma SplittingEnds(s: seq<char>, c: char, max: nat, elems: seq<seq<char>>, end: nat, limit: nat)
    requires Splitting(s, c, max, elems, end, limit) && (end == |s| || limit == 1)
    ensures elems == Split(s, c, max)
  {
  }

  /** How many words are still allowed when the nth has been taken, that one included. */
  function Allowed(max: nat, n: nat): nat
    requires max == 0 || 1 <= n <= max
  {
    if max == 0 then 0 else max - n + 1
  }

  /** The loop of fast_split after n words. */
  ghost predicate SplitTurn(s: seq<char>, c: char, max: nat, elems: seq<seq<char>>, end: nat, n: nat) {
    (max == 0 || 1 <= n <= max) && Splitting(s, c, max, elems, end, Allowed(max, n))
  }

  lemma SplitTurnNext(s: seq<char>, c: char, max: nat, elems: seq<seq<char>>, last: nat, end: nat, n: nat)
    requires SplitTurn(s, c, max, elems, last, n) && last < end <= |s| && (max == 0 || n < max)
    requires c !in s[last + 1..end] && (end < |s| ==> s[end] == c)
    ensures SplitTurn(s, c, max, elems + [s[last + 1..end]], end, n + 1)
  {
    SplittingGoesOn(s, c, max, elems, last, end, Allowed(max, n));
  }

  lemma SplitTurnEnds(s: seq<char>, c: char, max: nat, elems: seq<seq<char>>, end: nat, n: nat)
    requires SplitTurn(s, c, max, elems, end, n) && (end == |s| || (max != 0 && n >= max))
    ensures elems == Split(s, c, max)
  {
    SplittingEnds(s, c, max, elems, end, Allowed(max, n));
  }

  /** fast_split. */
  method FastSplit(s: seq<char>, delim: char, maxFields: nat) returns (elems: seq<seq<char>>)
    ensures elems == Split(s, delim, maxFields)
  {
    var start, numFieldsParsed := 0, 1;
    var end := FindFirstOf(s, start, delim);
    SplittingStarts(s, delim, maxFields, end);
    elems := [s[..end]];
    while end < |s| && (maxFields == 0 || numFieldsParsed < maxFields)
      invariant end <= |s| && SplitTurn(s, delim, maxFields, elems, end, numFieldsParsed)
      decreases |s| - end
    {
      ghost var last := end;
      start := end + 1;
      end := FindFirstOf(s, start, delim);
      SplitTurnNext(s, delim, maxFields, elems, last, end, numFieldsParsed);
      elems, numFieldsParsed := elems + [s[start..end]], numFieldsParsed + 1;
    }
    SplitTurnEnds(s, delim, maxFields, elems, end, numFieldsParsed);
  }

  /** The words still to come when the last one ended at `end`. */
  function Remaining(s: seq<char>, end: nat, c: char, limit: nat): seq<seq<char>>
    requires end <= |s|
  {
    if end == |s| || limit == 1 then [] else Split(s[end + 1..], c, Fewer(limit))
  }

  // strtoull_fast_dec and strtoull_fast_hex

  function FastValue(c: char, base: Base): int {
    match base
    case Hex => if Signed(c) >= 97 then Signed(c) - 87 else if Signed(c) >= 65 then Signed(c) - 55 else Signed(c) - 48
    case _ => Signed(c) - 48
  }

  /** The digits of either base, in either case. */
  lemma FastValueIs(d: nat)
    requires d < 16
    ensures FastValue("0123456789abcdef"[d], Hex) == FastValue("0123456789ABCDEF"[d], Hex) == d
    ensures d < 10 ==> FastValue("0123456789"[d], Dec) == d
  {
  }

  function FastAppend(x: nat, base: Base, c: char): (n: nat)
    ensures n < U64
  {
    ((match base case Hex => x * 16 case _ => x * 10) + FastValue(c, base)) % U64
  }

  function Fast(s: seq<char>, base: Base): (n: nat)
    ensures n < U64
  {
    if s == [] then 0 else FastAppend(Fast(s[..|s| - 1], base), base, s[|s| - 1])
  }

  /** A string as C sees it: up to the first NUL. */
  function CStr(s: seq<char>): seq<char> {
    if s == [] || s[0] == '\0' then [] else [s[0]] + CStr(s[1..])
  }

  lemma {:induction false} CStrIs(s: seq<char>, n: nat)
    requires n <= |s| && '\0' !in s[..n] && (n < |s| ==> s[n] == '\0')
    ensures CStr(s) == s[..n]
  {
    if n > 0 {
      assert s[0] == s[..n][0] && s[1..][..n - 1] == s[..n][1..];
      CStrIs(s[1..], n - 1);
      assert [s[0]] + s[..n][1..] == s[..n];
    }
  }

  /** strtoull_fast_dec and strtoull_fast_hex of a std::string's c_str(). */
  function Strtoull(s: seq<char>, base: Base): (n: nat)
    ensures n < U64
  {
    Fast(CStr(s), base)
  }

  lemma FastDigit(q: nat, n: nat, base: Base, c: char)
    requires n < U64 && Append(q, base, c) == n && Digit(c, base)
    ensures FastAppend(q, base, c) == n
  {
  }

  lemma {:induction false} FastPrint(n: nat, base: Base)
    requires n < U64
    ensures Fast(Print(n, base), base) == n
    decreases n
  {
    LastDigit(n, base);
    LastDigitReads(n, base);
    var s := Print(n, base);
    var q := Quotient(n, base);
    FastDigit(q, n, base, s[|s| - 1]);
    assert Fast(s[..|s| - 1], base) == q by {
      if q > 0 {
        FastPrint(q, base);
      }
    }
  }

  lemma StrtoullPrint(n: nat, base: Base)
    requires n < U64
    ensures Strtoull(Print(n, base), base) == n
  {
    var s := Print(n, base);
    PrintedWithout(n, base);
    CStrIs(s, |s|);
    assert s[..|s|] == s;
    FastPrint(n, base);
  }

  method StrtoullFast(s: seq<char>, base: Base) returns (sum: nat)
    ensures sum == Strtoull(s, base)
  {
    sum := 0;
    var i := 0;
    while i < |s| && s[i] != '\0'
      invariant i <= |s| && '\0' !in s[..i]
      invariant sum == Fast(s[..i], base)
    {
      assert s[..i + 1][..i] == s[..i];
      sum, i := FastAppend(sum, base, s[i]), i + 1;
    }
    CStrIs(s, i);
  }

  predicate FirstIsOne(w: seq<char>) { w != [] && w[0] == '1' }

  /** The decoding in the reformatter's loop.  None: an index or a substr out of range. */
  function Decode(words: seq<seq<char>>): (r: Option<Record>)
    ensures r.Some? ==> r.value.Fits()
    ensures r.Some? <==> |words| >= 9 && |words[2]| >= 2 && |words[8]| >= 2
  {
    if |words| < 9 || |words[2]| < 2 || |words[8]| < 2 then None
    else Some(Record(FirstIsOne(words[1]), FirstIsOne(words[4]), FirstIsOne(words[5]), FirstIsOne(words[7]),
                     ToInt32(Strtoull(words[6], Dec)), Strtoull(words[0], Dec), Strtoull(words[2][2..], Hex),
                     Strtoull(words[8][2..], Hex)))
  }

  /** One turn of the reformatter's loop. */
  method Reformat(line: seq<char>) returns (out: Option<seq<char>>)
    ensures var r := Decode(Split(line, ' ', 10));
            out == if r.None? then None else Some(PrintRecord(r.value))
  {
    var words := FastSplit(line, ' ', 10);
    if |words| < 9 || |words[2]| < 2 || |words[8]| < 2 {
      return None;
    }
    var time := StrtoullFast(words[0], Dec);
    var pc := StrtoullFast(words[2][2..], Hex);
    var cause := StrtoullFast(words[6], Dec);
    var wdata := StrtoullFast(words[8][2..], Hex);
    var r := Record(FirstIsOne(words[1]), FirstIsOne(words[4]), FirstIsOne(words[5]), FirstIsOne(words[7]),
                    ToInt32(cause), time, pc, wdata);
    out := Some(PrintRecord(r));
  }

  /** A raw trace line: time, valid, pc, instruction, exception, interrupt, cause, has-write, data. */
  function RawLine(r: Record, insn: seq<char>): seq<seq<char>> {
    [Print(r.time, Dec), [PrintBool(r.val)], "0x" + Print(r.pc, Hex), insn, [PrintBool(r.except)],
     [PrintBool(r.intrpt)], Print(if r.cause < 0 then 0 else r.cause, Dec), [PrintBool(r.hasW)],
     "0x" + Print(r.wdata, Hex)]
  }

  lemma Prefixed(pre: seq<char>, s: seq<char>)
    requires |pre| == 2
    ensures (pre + s)[2..] == s && |pre + s| >= 2
  {
  }

  lemma SmallInt32(n: nat)
    requires n < 0x8000_0000
    ensures ToInt32(n) == n
  {
  }

  lemma DecodeRaw(w: seq<seq<char>>, r: Record, insn: seq<char>)
    requires r.Fits() && 0 <= r.cause
    requires |w| >= 9 && (forall i | 0 <= i < 9 :: w[i] == RawLine(r, insn)[i])
    ensures Decode(w) == Some(r)
  {
    StrtoullPrint(r.time, Dec);
    StrtoullPrint(r.pc, Hex);
    StrtoullPrint(r.cause, Dec);
    StrtoullPrint(r.wdata, Hex);
    Prefixed("0x", Print(r.pc, Hex));
    Prefixed("0x", Print(r.wdata, Hex));
    SmallInt32(r.cause);
    assert w[2] == "0x" + Print(r.pc, Hex) && w[8] == "0x" + Print(r.wdata, Hex);
  }

  /** Reformatting a raw line and parsing the result recovers the record that the line spells. */
  lemma ReformatThenParse(line: seq<char>, r: Record, insn: seq<char>)
    requires r.Fits() && 0 <= r.cause
    requires RawLine(r, insn) <= Split(line, ' ', 10)
    ensures Decode(Split(line, ' ', 10)) == Some(r) && Parse(PrintRecord(r)) == Some(r)
  {
    DecodeRaw(Split(line, ' ', 10), r, insn);
    KeepsRecord(r);
  }

  /** Reformatting keeps a record exactly when its cause, cut to 32 bits, is a nonnegative int, or the one
      negative int that survives. */
  lemma ReformatIsFaithfulExactlyWhen(words: seq<seq<char>>)
    requires Decode(words).Some?
    ensures Parse(PrintRecord(Decode(words).value)) == Decode(words)
       <==> var cause := Strtoull(words[6], Dec) % 0x1_0000_0000;
            cause < 0x8000_0000 || cause == WRAPPED + 0x1_0000_0000
  {
    var r := Decode(words).value;
    KeepsRecord(r);
    SurvivingCause(Strtoull(words[6], Dec));
    assert r.cause == ToInt32(Strtoull(words[6], Dec));
  }

  lemma KeepsRecord(r: Record)
    requires r.Fits()
    ensures Parse(PrintRecord(r)) == Some(r) <==> r.cause >= 0 || r.cause == WRAPPED
  {
    RoundTripExactlyWhen(r, []);
    assert PrintRecord(r) + [] == PrintRecord(r);
  }

  lemma SurvivingCause(x: nat)
    ensures (ToInt32(x) >= 0 || ToInt32(x) == WRAPPED)
       <==> (x % 0x1_0000_0000 < 0x8000_0000 || x % 0x1_0000_0000 == WRAPPED + 0x1_0000_0000)
  {
  }
}
