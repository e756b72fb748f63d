/** The unwinder on the instructions of a program that calls and returns. */
module CallTree {
  import opened Common
  import opened Unwinder

  /** A call of a function: its entry point, and then in turn its own instructions and its calls.  After a
      call, one instruction of its own is next, perhaps one that the index marks as a call site.  At the end
      it returns, or it jumps to the entry point of another function, which takes its place. */
  datatype Call = Call(name: string, parts: seq<Part>, jump: Option<Call>)

  datatype Part = Own(isFnEntry: bool, isCallsite: bool) | Sub(call: Call, isCallsite: bool)

  /** An instruction, and the functions that are active at it, the outermost first. */
  datatype Step = Step(instr: Instr, path: seq<string>)

  function Walk(above: seq<string>, c: Call): (steps: seq<Step>)
    decreases c, |c.parts| + 2
  {
    Stay(above, c) + if c.jump.Some? then Walk(above, c.jump.value) else []
  }

  function Stay(above: seq<string>, c: Call): (steps: seq<Step>)
    decreases c, |c.parts| + 1
  {
    [Step(Instr(c.name, true, false, false), above + [c.name])] + Body(above + [c.name], c, 0)
  }

  function Body(path: seq<string>, c: Call, k: nat): seq<Step>
    requires k <= |c.parts|
    decreases c, |c.parts| - k
  {
    if k == |c.parts| then [] else PartSteps(path, c, k) + Body(path, c, k + 1)
  }

  function PartSteps(path: seq<string>, c: Call, k: nat): seq<Step>
    requires k < |c.parts|
    decreases c, 0
  {
    match c.parts[k]
    case Own(isFnEntry, isCallsite) => [Step(Instr(c.name, isFnEntry, isCallsite, false), path)]
    case Sub(call, isCallsite) => Walk(path, call) + [Step(Instr(c.name, false, isCallsite, false), path)]
  }

  /** Nothing is called by the reserved name. */
  ghost predicate Named(c: Call) {
    && c.name != MISC && (c.jump.Some? ==> Named(c.jump.value))
    && forall k | 0 <= k < |c.parts| && c.parts[k].Sub? :: Named(c.parts[k].call)
  }

  /** No function calls one of its own name, and none jumps to one of another. */
  ghost predicate Distinct(c: Call) {
    && (c.jump.Some? ==> c.jump.value.name == c.name && Distinct(c.jump.value))
    && forall k | 0 <= k < |c.parts| && c.parts[k].Sub? ::
         c.parts[k].call.name != c.name && Distinct(c.parts[k].call)
  }

  /** The inputs are those instructions, at any cycles and from any binary. */
  ghost predicate Runs(xs: seq<Input>, steps: seq<Step>) {
    |xs| == |steps| && forall i | 0 <= i < |xs| :: xs[i].instr == Some(steps[i].instr)
  }

  // ----- whatever follows the instructions

  /** Something that takes one instruction after the other, and shows names. */
  datatype Follower<!S> = Follower(next: (S, Input) -> S, names: S -> seq<string>)
  {
    function After(s: S, xs: seq<Input>): S {
      if xs == [] then s else After(next(s, xs[0]), xs[1..])
    }

    function Shown(s: S, xs: seq<Input>): seq<string> { names(After(s, xs)) }
  }

  /** After each instruction the names are those of the active functions. */
  ghost predicate Tracks<S>(f: Follower<S>, s: S, xs: seq<Input>, steps: seq<Step>) {
    |xs| == |steps| && forall i | 0 <= i < |xs| :: f.Shown(s, xs[..i + 1]) == steps[i].path
  }

  lemma {:induction false} AfterAppend<S>(f: Follower<S>, s: S, xs: seq<Input>, ys: seq<Input>)
    ensures f.After(s, xs + ys) == f.After(f.After(s, xs), ys)
    decreases |xs|
  {
    if xs == [] {
      assert xs + ys == ys;
    } else {
      assert (xs + ys)[1..] == xs[1..] + ys;
      AfterAppend(f, f.next(s, xs[0]), xs[1..], ys);
    }
  }

  /** Two stretches, one after the other. */
  lemma TracksBoth<S>(f: Follower<S>, s: S, xs: seq<Input>, steps: seq<Step>, n: nat, mid: S)
    requires n <= |xs| == |steps| && mid == f.After(s, xs[..n])
    ensures Tracks(f, s, xs, steps) <==> Tracks(f, s, xs[..n], steps[..n]) && Tracks(f, mid, xs[n..], steps[n..])
    ensures f.After(s, xs) == f.After(mid, xs[n..])
  {
    AfterAppend(f, s, xs[..n], xs[n..]);
    assert xs == xs[..n] + xs[n..];
    forall i | 0 <= i < n ensures xs[..n][..i + 1] == xs[..i + 1] && steps[..n][i] == steps[i] {
    }
    forall i | 0 <= i < |xs| - n
      ensures f.Shown(s, xs[..n + i + 1]) == f.Shown(mid, xs[n..][..i + 1]) && steps[n..][i] == steps[n + i]
    {
      AfterAppend(f, s, xs[..n], xs[n..][..i + 1]);
      assert xs[..n] + xs[n..][..i + 1] == xs[..n + i + 1];
    }
    if Tracks(f, s, xs[..n], steps[..n]) && Tracks(f, mid, xs[n..], steps[n..]) {
      forall i | 0 <= i < |xs| ensures f.Shown(s, xs[..i + 1]) == steps[i].path {
        if i < n {
          assert f.Shown(s, xs[..n][..i + 1]) == steps[..n][i].path;
        } else {
          assert f.Shown(mid, xs[n..][..i - n + 1]) == steps[n..][i - n].path;
        }
      }
    }
    if Tracks(f, s, xs, steps) {
      forall i | 0 <= i < |xs| - n ensures f.Shown(mid, xs[n..][..i + 1]) == steps[n..][i].path {
        assert f.Shown(s, xs[..n + i + 1]) == steps[n + i].path;
      }
    }
  }

  lemma TracksOne<S>(f: Follower<S>, s: S, xs: seq<Input>, steps: seq<Step>)
    requires |xs| == |steps| == 1
    ensures f.After(s, xs) == f.next(s, xs[0])
    ensures Tracks(f, s, xs, steps) <==> f.names(f.next(s, xs[0])) == steps[0].path
  {
    assert xs[..1] == xs;
    assert f.After(f.next(s, xs[0]), xs[1..]) == f.next(s, xs[0]);
  }

  /** An entry is shown, unless it is of the function that is shown last already. */
  ghost predicate EntryOk<S>(f: Follower<S>, s: S, x: Input, name: string) {
    x.instr == Some(Instr(name, true, false, false)) && MISC !in f.names(s) ==>
      f.names(f.next(s, x))
      == if f.names(s) != [] && Last(f.names(s)) == name then f.names(s) else f.names(s) + [name]
  }

  /** An instruction of the function that is shown last changes nothing. */
  ghost predicate OwnOk<S>(f: Follower<S>, s: S, x: Input) {
    x.instr.Some? && f.names(s) != [] && Last(f.names(s)) == x.instr.value.functionName != MISC ==>
      f.names(f.next(s, x)) == f.names(s)
  }

  /** One of the function that is shown before the last comes back to it. */
  ghost predicate ReturnOk<S>(f: Follower<S>, s: S, x: Input, path: seq<string>, name: string) {
    && path != [] && f.names(s) == path + [name] && name != MISC && name != Last(path)
    && x.instr.Some? && x.instr.value.functionName == Last(path)
    && !x.instr.value.inAsmSequence && !x.instr.value.isFnEntry
    ==> f.names(f.next(s, x)) == path
  }

  ghost predicate FollowerOk<S(!new)>(f: Follower<S>) {
    && (forall s, x, name :: EntryOk(f, s, x, name))
    && (forall s, x :: OwnOk(f, s, x))
    && (forall s, x, path, name :: ReturnOk(f, s, x, path, name))
  }

  // ----- whole calls

  /** The call is not made by a function of its own name. */
  predicate Apart(above: seq<string>, c: Call) {
    above == [] || Last(above) != c.name
  }

  ghost predicate PartApart(c: Call, k: nat)
    requires k < |c.parts|
  {
    c.parts[k].Sub? ==> c.parts[k].call.name != c.name && Distinct(c.parts[k].call)
  }

  ghost predicate PartsApart(c: Call, k: nat) {
    forall j | k <= j < |c.parts| :: PartApart(c, j)
  }

  lemma PartsApartNext(c: Call, k: nat)
    requires k < |c.parts|
    ensures PartsApart(c, k) <==> PartApart(c, k) && PartsApart(c, k + 1)
  {
  }

  lemma PartsOfCall(c: Call)
    ensures Distinct(c) <==>
      PartsApart(c, 0) && (c.jump.Some? ==> c.jump.value.name == c.name && Distinct(c.jump.value))
  {
    if PartsApart(c, 0) {
      forall j | 0 <= j < |c.parts| && c.parts[j].Sub?
        ensures c.parts[j].call.name != c.name && Distinct(c.parts[j].call)
      {
        assert PartApart(c, j);
      }
    }
  }

  /** The names before a call, which may be made by a jump from a function of the same name. */
  ghost predicate Before(names: seq<string>, above: seq<string>, c: Call) {
    names == above + [c.name] || (names == above && Apart(above, c))
  }

  lemma StayTracks<S(!new)>(f: Follower<S>, s: S, xs: seq<Input>, above: seq<string>, c: Call, steps: seq<Step>)
    requires FollowerOk(f) && steps == Stay(above, c)
    requires Before(f.names(s), above, c) && MISC !in above && Named(c) && Runs(xs, steps)
    ensures PartsApart(c, 0) ==> Tracks(f, s, xs, steps) && f.Shown(s, xs) == above + [c.name]
    ensures !PartsApart(c, 0) ==> !Tracks(f, s, xs, steps)
    decreases c, |c.parts| + 1
  {
    assert steps[..1] == [Step(Instr(c.name, true, false, false), above + [c.name])];
    assert steps[1..] == Body(above + [c.name], c, 0);
    assert EntryOk(f, s, xs[0], c.name);
    TracksOne(f, s, xs[..1], steps[..1]);
    var mid := f.After(s, xs[..1]);
    TracksBoth(f, s, xs, steps, 1, mid);
    BodyTracks(f, mid, xs[1..], above + [c.name], c, 0, steps[1..]);
  }

  lemma {:induction false} WalkTracks<S(!new)>(f: Follower<S>, s: S, xs: seq<Input>, above: seq<string>, c: Call,
                                               steps: seq<Step>)
    requires FollowerOk(f) && steps == Walk(above, c)
    requires Before(f.names(s), above, c) && MISC !in above && Named(c) && Runs(xs, steps)
    ensures Distinct(c) ==> Tracks(f, s, xs, steps) && f.Shown(s, xs) == above + [c.name]
    ensures !Distinct(c) ==> !Tracks(f, s, xs, steps)
    decreases c, |c.parts| + 2
  {
    var n := |Stay(above, c)|;
    var mid := f.After(s, xs[..n]);
    assert steps[..n] == Stay(above, c);
    StayTracks(f, s, xs[..n], above, c, steps[..n]);
    TracksBoth(f, s, xs, steps, n, mid);
    PartsOfCall(c);
    if c.jump.None? {
      assert xs[..n] == xs;
    } else if PartsApart(c, 0) {
      assert steps[n..] == Walk(above, c.jump.value);
      if c.jump.value.name == c.name {
        WalkTracks(f, mid, xs[n..], above, c.jump.value, steps[n..]);
      } else {
        JumpIsMissed(f, mid, xs[n..], above, c, steps[n..]);
      }
    }
  }

  /** After a jump the function that is gone is still shown. */
  lemma JumpIsMissed<S(!new)>(f: Follower<S>, s: S, xs: seq<Input>, above: seq<string>, c: Call, steps: seq<Step>)
    requires FollowerOk(f) && c.jump.Some? && c.jump.value.name != c.name && steps == Walk(above, c.jump.value)
    requires f.names(s) == above + [c.name] && MISC !in above && Named(c) && Runs(xs, steps)
    ensures !Tracks(f, s, xs, steps)
  {
    assert EntryOk(f, s, xs[0], c.jump.value.name);
    TracksOne(f, s, xs[..1], steps[..1]);
    TracksBoth(f, s, xs, steps, 1, f.After(s, xs[..1]));
    assert |f.names(f.next(s, xs[0]))| == |above| + 2;
    assert steps[0].path == above + [c.jump.value.name];
  }

  /** A call of a function of the same name as the caller is not shown. */
  lemma SelfCallIsMissed<S(!new)>(f: Follower<S>, s: S, xs: seq<Input>, path: seq<string>, c: Call, steps: seq<Step>)
    requires FollowerOk(f) && steps == Walk(path, c) && !Apart(path, c)
    requires f.names(s) == path && MISC !in path && Runs(xs, steps)
    ensures !Tracks(f, s, xs, steps)
  {
    assert EntryOk(f, s, xs[0], c.name);
    TracksOne(f, s, xs[..1], steps[..1]);
    TracksBoth(f, s, xs, steps, 1, f.After(s, xs[..1]));
    assert |f.names(f.next(s, xs[0]))| == |path|;
    assert steps[0].path == path + [c.name];
  }

  lemma {:induction false} BodyTracks<S(!new)>(f: Follower<S>, s: S, xs: seq<Input>, path: seq<string>, c: Call, k: nat,
                                               steps: seq<Step>)
    requires FollowerOk(f) && k <= |c.parts| && steps == Body(path, c, k)
    requires f.names(s) == path && MISC !in path && Named(c) && Runs(xs, steps)
    requires path != [] && Last(path) == c.name
    ensures PartsApart(c, k) ==> Tracks(f, s, xs, steps) && f.Shown(s, xs) == path
    ensures !PartsApart(c, k) ==> !Tracks(f, s, xs, steps)
    decreases c, |c.parts| - k
  {
    if k < |c.parts| {
      var n := |PartSteps(path, c, k)|;
      assert steps[..n] == PartSteps(path, c, k) && steps[n..] == Body(path, c, k + 1);
      var mid := f.After(s, xs[..n]);
      PartTracks(f, s, xs[..n], path, c, k, steps[..n]);
      TracksBoth(f, s, xs, steps, n, mid);
      PartsApartNext(c, k);
      if PartApart(c, k) {
        BodyTracks(f, mid, xs[n..], path, c, k + 1, steps[n..]);
      }
    }
  }

  lemma {:induction false} PartTracks<S(!new)>(f: Follower<S>, s: S, xs: seq<Input>, path: seq<string>, c: Call, k: nat,
                                               steps: seq<Step>)
    requires FollowerOk(f) && k < |c.parts| && steps == PartSteps(path, c, k)
    requires f.names(s) == path && MISC !in path && Named(c) && Runs(xs, steps)
    requires path != [] && Last(path) == c.name
    ensures PartApart(c, k) ==> Tracks(f, s, xs, steps) && f.Shown(s, xs) == path
    ensures !PartApart(c, k) ==> !Tracks(f, s, xs, steps)
    decreases c, 0
  {
    match c.parts[k]
    case Own(_, _) =>
      assert OwnOk(f, s, xs[0]);
      TracksOne(f, s, xs, steps);
    case Sub(call, _) =>
      var n := |xs| - 1;
      var mid := f.After(s, xs[..n]);
      assert steps[..n] == Walk(path, call);
      TracksBoth(f, s, xs, steps, n, mid);
      if call.name == c.name {
        SelfCallIsMissed(f, s, xs[..n], path, call, steps[..n]);
      } else {
        WalkTracks(f, s, xs[..n], path, call, steps[..n]);
      }
      if PartApart(c, k) {
        assert ReturnOk(f, mid, xs[n], path, call.name);
        TracksOne(f, mid, xs[n..], steps[n..]);
      }
  }

  // ----- the unwinder follows

  function Names(stack: seq<Frame>): (names: seq<string>)
    ensures |names| == |stack|
  {
    seq(|stack|, i requires 0 <= i < |stack| => stack[i].name)
  }

  function Labeller(): Follower<seq<Frame>> {
    Follower((stack: seq<Frame>, x: Input) => Add(stack, x).stack, Names)
  }

  lemma {:induction false} LabellerAdds(stack: seq<Frame>, xs: seq<Input>)
    ensures Labeller().After(stack, xs) == AddAll(stack, xs).stack
    decreases |xs|
  {
    if xs != [] {
      LabellerAdds(Add(stack, xs[0]).stack, xs[1..]);
    }
  }

  lemma EntryStep(stack: seq<Frame>, x: Input, name: string)
    ensures EntryOk(Labeller(), stack, x, name)
  {
    if x.instr.Some? {
      if stack != [] {
        assert Names(stack)[|stack| - 1] == Last(stack).name;
      }
      KnownMeans(stack, x);
    }
  }

  lemma OwnStep(stack: seq<Frame>, x: Input)
    ensures OwnOk(Labeller(), stack, x)
  {
    if x.instr.Some? && stack != [] {
      assert Names(stack)[|stack| - 1] == Last(stack).name;
      KnownMeans(stack, x);
    }
  }

  lemma ReturnStep(stack: seq<Frame>, x: Input, path: seq<string>, name: string)
    requires path != [] && Names(stack) == path + [name] && name != MISC && name != Last(path)
    requires x.instr.Some? && x.instr.value.functionName == Last(path)
    requires !x.instr.value.inAsmSequence && !x.instr.value.isFnEntry
    ensures Names(Add(stack, x).stack) == path
  {
    var n := |stack|;
    assert Names(stack)[n - 1] == stack[n - 1].name && Names(stack)[n - 2] == stack[n - 2].name;
    assert Topmost(stack, path[n - 2], n - 2);
    KnownMeans(stack, x);
    assert Keeps(stack, n - 1, x.cycle, Add(stack, x).stack);
    forall j | 0 <= j < n - 1 ensures Add(stack, x).stack[j].name == path[j] {
      assert Names(stack)[j] == stack[j].name;
    }
  }

  lemma LabellerIsOk()
    ensures FollowerOk(Labeller())
  {
    var f := Labeller();
    forall stack, x, name ensures EntryOk(f, stack, x, name) {
      EntryStep(stack, x, name);
    }
    forall stack, x ensures OwnOk(f, stack, x) {
      OwnStep(stack, x);
    }
    forall stack, x, path, name ensures ReturnOk(f, stack, x, path, name) {
      if && path != [] && Names(stack) == path + [name] && name != MISC && name != Last(path)
         && x.instr.Some? && x.instr.value.functionName == Last(path)
         && !x.instr.value.inAsmSequence && !x.instr.value.isFnEntry {
        ReturnStep(stack, x, path, name);
      }
    }
  }

  /** The labels are the active functions. */
  ghost predicate LabelsAt(xs: seq<Input>, steps: seq<Step>, i: nat)
    requires i < |xs| == |steps|
  {
    Names(AddAll([], xs[..i + 1]).stack) == steps[i].path
  }

  /** They are after every instruction of a program, wherever it is watched, if and only if no function calls
      one of its own name and none jumps to the entry point of one of another.  (In direct recursion there is
      one label for all the calls, and after a jump there is one too many.) */
  lemma LabelsAreActiveExactlyWhen(xs: seq<Input>, main: Call)
    requires Named(main) && Runs(xs, Walk([], main))
    ensures (forall i | 0 <= i < |xs| :: LabelsAt(xs, Walk([], main), i)) <==> Distinct(main)
  {
    var f, steps := Labeller(), Walk([], main);
    LabellerIsOk();
    assert Names([]) == [];
    WalkTracks(f, [], xs, [], main, steps);
    forall i | 0 <= i < |xs| ensures LabelsAt(xs, steps, i) <==> f.Shown([], xs[..i + 1]) == steps[i].path {
      LabellerAdds([], xs[..i + 1]);
    }
  }
}
