/** The simulator as the profiler drives it: a guest that moves one instruction at a time, a host that
    serves its requests, and run_for.

    The target is abstract.  `M` is everything the simulator holds, the host's exit code included; `O`
    is what the guest and the profiler can tell apart.  Most moves of the guest leave an entry in the
    trace; an interrupt, a fault on fetch and an idle cycle do not.  A restore puts the guest back, but
    not the exit code. */
module Guest {
  import opened Common

  const INTERLEAVE: nat := 5000

  datatype TraceEntry = TraceEntry(pc: nat, asid: nat, cycle: nat)

  /** Where stepping has led: how many moves were made, and how many of them were instructions. */
  datatype Stepped<M> = Stepped(machine: M, moves: nat, committed: nat)

  /** `stepTarget` is step_target, asked for at most n instructions.
      `silent` says that the next move leaves nothing in the trace.  `pending` is check_tohost_req and
      `serve` is handle_tohost_req; `running` is target_running, and `asked` says that the guest has by
      then written a request to stop. */
  datatype Target<!M, !O> = Target(
    stepTarget: (M, nat) -> Stepped<M>,
    pending: M -> bool,
    serve: M -> M,
    running: M -> bool,
    restore: (M, M) -> M,           // deserialize_proto: the saved state, the current one
    obs: M -> O,
    next: O -> O,
    silent: O -> bool,
    asked: O -> bool,
    entry: O -> TraceEntry)
  {
    function Pc(o: O): nat { entry(o).pc }

    /** The guest after n more moves. */
    function After(o: O, n: nat): O {
      if n == 0 then o else next(After(o, n - 1))
    }

    /** How many of the next n moves are instructions, which leave an entry in the trace. */
    function Count(o: O, n: nat): (c: nat)
      ensures c <= n
    {
      if n == 0 then 0 else Count(o, n - 1) + if silent(After(o, n - 1)) then 0 else 1
    }

    /** What the next move leaves in the trace. */
    function Mark(o: O): seq<TraceEntry> { if silent(o) then [] else [entry(o)] }

    function Trace(o: O, n: nat): (r: seq<TraceEntry>)
      ensures |r| == Count(o, n)
    {
      if n == 0 then [] else Trace(o, n - 1) + Mark(After(o, n - 1))
    }
  }

  lemma {:induction false} AfterAfter<M, O>(t: Target<M, O>, o: O, a: nat, b: nat)
    ensures t.After(t.After(o, a), b) == t.After(o, a + b)
  {
    if b > 0 {
      AfterAfter(t, o, a, b - 1);
    }
  }

  lemma {:induction false} CountCount<M, O>(t: Target<M, O>, o: O, a: nat, b: nat)
    ensures t.Count(o, a) + t.Count(t.After(o, a), b) == t.Count(o, a + b)
  {
    if b > 0 {
      CountCount(t, o, a, b - 1);
      AfterAfter(t, o, a, b - 1);
    }
  }

  lemma MovesJoin<M, O>(t: Target<M, O>, o: O, a: nat, b: nat, n: nat)
    requires n == a + b
    ensures t.After(t.After(o, a), b) == t.After(o, n)
    ensures t.Count(o, a) + t.Count(t.After(o, a), b) == t.Count(o, n)
  {
    AfterAfter(t, o, a, b);
    CountCount(t, o, a, b);
  }

  lemma CountGrows<M, O>(t: Target<M, O>, o: O, a: nat, b: nat)
    requires a <= b
    ensures t.Count(o, a) <= t.Count(o, b)
  {
    CountCount(t, o, a, b - a);
  }

  lemma {:induction false} TraceTrace<M, O>(t: Target<M, O>, o: O, a: nat, b: nat)
    ensures t.Trace(o, a) + t.Trace(t.After(o, a), b) == t.Trace(o, a + b)
  {
    if b > 0 {
      TraceTrace(t, o, a, b - 1);
      AfterAfter(t, o, a, b - 1);
      Regroup(t.Trace(o, a), t.Trace(t.After(o, a), b - 1), t.Mark(t.After(o, a + b - 1)));
    } else {
      assert t.Trace(t.After(o, a), 0) == [];
    }
  }

  /** Every one of the next n moves is an instruction. */
  predicate NoneSilent<M, O>(t: Target<M, O>, o: O, n: nat) {
    forall j | 0 <= j < n :: !t.silent(t.After(o, j))
  }

  lemma {:induction false} CountAll<M, O>(t: Target<M, O>, o: O, n: nat)
    ensures t.Count(o, n) == n <==> NoneSilent(t, o, n)
  {
    if n > 0 {
      CountAll(t, o, n - 1);
    }
  }

  /** What stepping may do: it commits at most n instructions, makes some move at least, and the guest moves
      by those, however they are cut into chunks; it does not stop the target. */
  ghost predicate StepOk<M, O>(t: Target<M, O>, m: M, n: nat) {
    var r := t.stepTarget(m, n);
    && r.committed <= r.moves <= n && (n > 0 ==> r.moves > 0) && r.committed == t.Count(t.obs(m), r.moves)
    && t.obs(r.machine) == t.After(t.obs(m), r.moves) && t.running(r.machine) == t.running(m)
  }

  /** Serving a request clears it, is not seen by the guest, and stops the target if and only if that is
      what the guest has asked for; until it is served, a request to stop waits. */
  ghost predicate ServeOk<M, O>(t: Target<M, O>, m: M) {
    && t.obs(t.serve(m)) == t.obs(m) && !t.pending(t.serve(m))
    && t.running(t.serve(m)) == (t.running(m) && !t.asked(t.obs(m)))
    && (t.running(m) && t.asked(t.obs(m)) ==> t.pending(m))
  }

  /** A restore gives the guest back as it was saved, and leaves the exit code alone. */
  ghost predicate RestoreOk<M, O>(t: Target<M, O>, saved: M, m: M) {
    t.obs(t.restore(saved, m)) == t.obs(saved) && t.running(t.restore(saved, m)) == t.running(m)
  }

  ghost predicate AskedOk<M, O>(t: Target<M, O>, o: O) {
    t.asked(o) ==> t.asked(t.next(o))
  }

  /** The hypothesis of the rewind: what the guest does depends neither on how run_for is cut into chunks
      nor on having been rewound. */
  ghost predicate Lawful<M(!new), O(!new)>(t: Target<M, O>) {
    && (forall m, n: nat :: StepOk(t, m, n))
    && (forall m :: ServeOk(t, m))
    && (forall saved, m :: RestoreOk(t, saved, m))
    && (forall o :: AskedOk(t, o))
  }

  lemma {:induction false} AskedStays<M(!new), O(!new)>(t: Target<M, O>, o: O, i: nat, j: nat)
    requires Lawful(t) && i <= j && t.asked(t.After(o, i))
    ensures t.asked(t.After(o, j))
    decreases j
  {
    if i < j {
      AskedStays(t, o, i, j - 1);
      assert AskedOk(t, t.After(o, j - 1));
    }
  }

  // ----- run_for

  /** The lesser of `steps` and INTERLEAVE. */
  function Chunk(steps: nat): (n: nat)
    ensures n <= steps && (steps > 0 ==> n > 0)
  {
    if steps < INTERLEAVE then steps else INTERLEAVE
  }

  /** Where run_for leaves the machine.  It ends early when the target has stopped, or when a step has
      stalled, that is, left nothing in the trace. */
  function Ran<M(!new), O(!new)>(t: Target<M, O>, m: M, steps: nat): (r: Stepped<M>)
    requires Lawful(t)
    decreases steps, if t.pending(m) then 1 else 0
  {
    if steps == 0 || !t.running(m) then Stepped(m, 0, 0)
    else if t.pending(m) then
      assert ServeOk(t, m);
      Ran(t, t.serve(m), steps)
    else
      assert StepOk(t, m, Chunk(steps));
      var step := t.stepTarget(m, Chunk(steps));
      if step.committed == 0 then step else Join(step, Ran(t, step.machine, steps - step.committed))
  }

  function Join<M>(first: Stepped<M>, second: Stepped<M>): Stepped<M> {
    Stepped(second.machine, first.moves + second.moves, first.committed + second.committed)
  }

  /** One turn of the loop of run_for. */
  lemma RanUnfolds<M(!new), O(!new)>(t: Target<M, O>, m: M, steps: nat)
    requires Lawful(t) && steps > 0 && t.running(m) && !t.pending(m)
    ensures var step := t.stepTarget(m, Chunk(steps));
            && step.moves > 0 && step.committed <= steps && step.committed == t.Count(t.obs(m), step.moves)
            && t.obs(step.machine) == t.After(t.obs(m), step.moves) && t.running(step.machine)
            && Ran(t, m, steps)
               == if step.committed == 0 then step else Join(step, Ran(t, step.machine, steps - step.committed))
  {
    assert StepOk(t, m, Chunk(steps));
  }

  /** The guest is where the moves lead. */
  ghost predicate Moved<M, O>(t: Target<M, O>, m: M, r: Stepped<M>) {
    t.obs(r.machine) == t.After(t.obs(m), r.moves) && r.committed == t.Count(t.obs(m), r.moves)
  }

  lemma MovedJoin<M, O>(t: Target<M, O>, m: M, first: Stepped<M>, second: Stepped<M>)
    requires Moved(t, m, first) && Moved(t, first.machine, second)
    ensures Moved(t, m, Join(first, second))
  {
    AfterAfter(t, t.obs(m), first.moves, second.moves);
    CountCount(t, t.obs(m), first.moves, second.moves);
  }

  /** The guest is where run_for's moves lead, and no more instructions than asked for are among them; a
      target that runs afterwards ran before. */
  lemma {:induction false} RanMoves<M(!new), O(!new)>(t: Target<M, O>, m: M, steps: nat)
    requires Lawful(t)
    ensures Moved(t, m, Ran(t, m, steps)) && Ran(t, m, steps).committed <= steps
    ensures t.running(Ran(t, m, steps).machine) ==> t.running(m)
    decreases steps, if t.pending(m) then 1 else 0
  {
    if steps > 0 && t.running(m) {
      if t.pending(m) {
        assert ServeOk(t, m);
        RanMoves(t, t.serve(m), steps);
      } else {
        RanUnfolds(t, m, steps);
        var step := t.stepTarget(m, Chunk(steps));
        if step.committed > 0 {
          RanMoves(t, step.machine, steps - step.committed);
          MovedJoin(t, m, step, Ran(t, step.machine, steps - step.committed));
        }
      }
    }
  }

  /** A target that has stopped, or whose guest has asked for it, makes no move. */
  lemma RanStops<M(!new), O(!new)>(t: Target<M, O>, m: M, steps: nat)
    requires Lawful(t) && (!t.running(m) || t.asked(t.obs(m)))
    ensures Ran(t, m, steps).moves == 0
    ensures steps > 0 ==> !t.running(Ran(t, m, steps).machine)
  {
    if steps > 0 && t.running(m) {
      assert ServeOk(t, m);
      assert Ran(t, m, steps) == Ran(t, t.serve(m), steps);
    }
  }

  /** A target stops only where its guest has asked for it. */
  lemma {:induction false} RanRuns<M(!new), O(!new)>(t: Target<M, O>, m: M, steps: nat)
    requires Lawful(t)
    ensures t.running(m) && !t.running(Ran(t, m, steps).machine) ==> t.asked(t.After(t.obs(m), Ran(t, m, steps).moves))
    decreases steps, if t.pending(m) then 1 else 0
  {
    if steps > 0 && t.running(m) {
      if t.pending(m) {
        assert ServeOk(t, m);
        RanRuns(t, t.serve(m), steps);
      } else {
        RanUnfolds(t, m, steps);
        var step := t.stepTarget(m, Chunk(steps));
        if step.committed > 0 {
          RanRuns(t, step.machine, steps - step.committed);
          AfterAfter(t, t.obs(m), step.moves, Ran(t, step.machine, steps - step.committed).moves);
        }
      }
    }
  }

  /** run_for commits fewer instructions than asked for only if the target stops or the last move was not
      an instruction. */
  ghost predicate EndsEarly<M, O>(t: Target<M, O>, m: M, r: Stepped<M>, steps: int) {
    r.committed < steps ==> !t.running(r.machine) || (r.moves > 0 && t.silent(t.After(t.obs(m), r.moves - 1)))
  }

  lemma EndsEarlyJoin<M, O>(t: Target<M, O>, m: M, first: Stepped<M>, second: Stepped<M>, steps: nat)
    requires Moved(t, m, first) && EndsEarly(t, first.machine, second, steps - first.committed)
    ensures EndsEarly(t, m, Join(first, second), steps)
  {
    if second.moves > 0 {
      AfterAfter(t, t.obs(m), first.moves, second.moves - 1);
    }
  }

  lemma {:induction false} RanShort<M(!new), O(!new)>(t: Target<M, O>, m: M, steps: nat)
    requires Lawful(t)
    ensures EndsEarly(t, m, Ran(t, m, steps), steps)
    decreases steps, if t.pending(m) then 1 else 0
  {
    if steps > 0 && t.running(m) {
      if t.pending(m) {
        assert ServeOk(t, m);
        RanShort(t, t.serve(m), steps);
      } else {
        RanUnfolds(t, m, steps);
        var step := t.stepTarget(m, Chunk(steps));
        if step.committed > 0 {
          RanShort(t, step.machine, steps - step.committed);
          EndsEarlyJoin(t, m, step, Ran(t, step.machine, steps - step.committed), steps);
        }
      }
    }
  }

  /** run_for(1) makes one move, or finds the target stopped. */
  lemma OneStep<M(!new), O(!new)>(t: Target<M, O>, m: M)
    requires Lawful(t)
    ensures Ran(t, m, 1).moves == if t.running(m) && !t.asked(t.obs(m)) then 1 else 0
    ensures t.obs(Ran(t, m, 1).machine) == t.After(t.obs(m), Ran(t, m, 1).moves)
    ensures t.running(Ran(t, m, 1).machine) == (t.running(m) && !t.asked(t.obs(m)))
  {
    RanMoves(t, m, 1);
    if t.running(m) && !t.asked(t.obs(m)) {
      assert ServeOk(t, m);
      if t.pending(m) {
        OneStepServed(t, t.serve(m));
      } else {
        OneStepServed(t, m);
      }
    } else {
      RanStops(t, m, 1);
    }
  }

  lemma OneStepServed<M(!new), O(!new)>(t: Target<M, O>, m: M)
    requires Lawful(t) && t.running(m) && !t.pending(m)
    ensures Ran(t, m, 1).moves == 1 && t.running(Ran(t, m, 1).machine)
  {
    assert StepOk(t, m, 1);
    var step := t.stepTarget(m, 1);
    assert Ran(t, step.machine, 0) == Stepped(step.machine, 0, 0);
  }

  /** The loop of run_for at some turn: `r` has been run, `trace` is what it left. */
  ghost predicate Running<M(!new), O(!new)>(t: Target<M, O>, m0: M, steps: nat, r: Stepped<M>,
                                            trace: seq<TraceEntry>, stalled: bool)
    requires Lawful(t)
  {
    && Moved(t, m0, r) && r.committed <= steps
    && trace == t.Trace(t.obs(m0), r.moves)
    && Ran(t, m0, steps)
       == Join(r, if stalled then Stepped(r.machine, 0, 0) else Ran(t, r.machine, steps - r.committed))
  }

  lemma RunningServe<M(!new), O(!new)>(t: Target<M, O>, m0: M, steps: nat, r: Stepped<M>, trace: seq<TraceEntry>)
    requires Lawful(t) && Running(t, m0, steps, r, trace, false)
    requires t.running(r.machine) && r.committed < steps && t.pending(r.machine)
    ensures Running(t, m0, steps, r.(machine := t.serve(r.machine)), trace, false) && !t.pending(t.serve(r.machine))
  {
    assert ServeOk(t, r.machine);
  }

  lemma JoinJoin<M>(a: Stepped<M>, b: Stepped<M>, c: Stepped<M>)
    ensures Join(Join(a, b), c) == Join(a, Join(b, c))
  {
  }

  lemma RanGoesOn<M(!new), O(!new)>(t: Target<M, O>, all: Stepped<M>, r: Stepped<M>, left: nat)
    requires Lawful(t) && left > 0 && t.running(r.machine) && !t.pending(r.machine)
    requires all == Join(r, Ran(t, r.machine, left))
    ensures var step := t.stepTarget(r.machine, Chunk(left));
            && step.committed <= left
            && all == Join(Join(r, step), if step.committed == 0 then Stepped(step.machine, 0, 0)
                                          else Ran(t, step.machine, left - step.committed))
  {
    RanUnfolds(t, r.machine, left);
    var step := t.stepTarget(r.machine, Chunk(left));
    if step.committed > 0 {
      JoinJoin(r, step, Ran(t, step.machine, left - step.committed));
    }
  }

  lemma TraceGoesOn<M, O>(t: Target<M, O>, m0: M, r: Stepped<M>, trace: seq<TraceEntry>, step: Stepped<M>)
    requires Moved(t, m0, r) && Moved(t, r.machine, step) && trace == t.Trace(t.obs(m0), r.moves)
    ensures Moved(t, m0, Join(r, step))
    ensures trace + t.Trace(t.obs(r.machine), step.moves) == t.Trace(t.obs(m0), Join(r, step).moves)
  {
    MovedJoin(t, m0, r, step);
    TraceTrace(t, t.obs(m0), r.moves, step.moves);
  }

  lemma RunningStep<M(!new), O(!new)>(t: Target<M, O>, m0: M, steps: nat, r: Stepped<M>, trace: seq<TraceEntry>)
    requires Lawful(t) && Running(t, m0, steps, r, trace, false)
    requires t.running(r.machine) && r.committed < steps && !t.pending(r.machine)
    ensures var step := t.stepTarget(r.machine, Chunk(steps - r.committed));
            Running(t, m0, steps, Join(r, step), trace + t.Trace(t.obs(r.machine), step.moves), step.committed == 0)
  {
    var left := steps - r.committed;
    var step := t.stepTarget(r.machine, Chunk(left));
    assert StepOk(t, r.machine, Chunk(left));
    TraceGoesOn(t, m0, r, trace, step);
    RanGoesOn(t, Ran(t, m0, steps), r, left);
    assert steps - Join(r, step).committed == left - step.committed;
  }

  /** sim_lib_t::run_for, with what it appends to the trace. */
  method RunFor<M(!new), O(!new)>(t: Target<M, O>, m0: M, steps: nat) returns (r: Stepped<M>, trace: seq<TraceEntry>)
    requires Lawful(t)
    ensures r == Ran(t, m0, steps)
    ensures trace == t.Trace(t.obs(m0), r.moves)
  {
    r, trace := Stepped(m0, 0, 0), [];
    var stalled := false;
    while t.running(r.machine) && r.committed < steps && !stalled
      invariant Running(t, m0, steps, r, trace, stalled)
      decreases steps - r.committed, !stalled, if t.pending(r.machine) then 1 else 0
    {
      if t.pending(r.machine) {
        RunningServe(t, m0, steps, r, trace);
        r := r.(machine := t.serve(r.machine));
      } else {
        RunningStep(t, m0, steps, r, trace);
        var step := t.stepTarget(r.machine, Chunk(steps - r.committed));
        r, trace := Join(r, step), trace + t.Trace(t.obs(r.machine), step.moves);
        stalled := step.committed == 0;
      }
    }
  }
}
