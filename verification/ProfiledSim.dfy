/** The profiler on the checkpoint: profiler_t::run as it works in place on the simulator, whose memory is
    checkpointed by copy-on-write.  Module Checkpoint says what the simulator's operations do to memory,
    module Profiler what the loop makes of a target that obeys its laws; here the first is shown to be
    such a target. */
module ProfiledSim {
  import opened Common
  import opened Guest
  import opened Hooking
  import opened Profiler
  import opened SnapshotModel
  import opened Checkpoint

  // ----- the target

  /** What a guest is made of. */
  datatype Seen<A> = Seen(mem: Memory, arch: A)

  /** And its host besides: the exit code. */
  datatype Host<A> = Host(seen: Seen<A>, exited: bool)

  type HostTarget<!A> = Target<Host<A>, Seen<A>>

  /** A guest on a simulator with so many MMUs and pages: what its next move does to the memory side, in
      terms of what the guest is made of and of the store TLBs, and what it does to the guest.  Asked for
      n instructions step_target makes `takes` moves. */
  datatype Program<!A> = Program(
    ops: (Seen<A>, seq<Tlb>) -> seq<Op<A>>,
    next: Seen<A> -> Seen<A>,
    takes: (Seen<A>, nat) -> nat,
    silent: Seen<A> -> bool,
    asked: Seen<A> -> bool,
    entry: Seen<A> -> TraceEntry,
    agrees: (Seen<A>, seq<Tlb>) -> bool,   // the store TLBs hold translations that are still good
    mmus: nat,
    dramPages: nat)
  {
    function After(o: Seen<A>, n: nat): Seen<A> {
      if n == 0 then o else next(After(o, n - 1))
    }

    function Count(o: Seen<A>, n: nat): nat {
      if n == 0 then 0 else Count(o, n - 1) + if silent(After(o, n - 1)) then 0 else 1
    }

    function Takes(o: Seen<A>, n: nat): nat { takes(o, n) }

    function Mark(o: Seen<A>): seq<TraceEntry> { if silent(o) then [] else [entry(o)] }

    function Trace(o: Seen<A>, n: nat): seq<TraceEntry> {
      if n == 0 then [] else Trace(o, n - 1) + Mark(After(o, n - 1))
    }
  }

  function SeenOf<A>(v: Machine<A>): Seen<A> { Seen(v.mem, v.arch) }

  ghost predicate Fits<A>(p: Program<A>, v: Machine<A>) {
    && WellFormed(v) && SnapshotOk(v) && |v.tlbs| == p.mmus && v.dramPages == p.dramPages
    && p.agrees(SeenOf(v), v.tlbs)
  }

  /** The operations of one move can be done, take no snapshot, and change the guest as they should. */
  ghost predicate MoveOk<A>(p: Program<A>, v: Machine<A>) {
    Fits(p, v) ==>
      var ops := p.ops(SeenOf(v), v.tlbs);
      && Forward(ops) && EnabledRun(v, ops)
      && SeenOf(Run(v, ops)) == p.next(SeenOf(v)) && p.agrees(p.next(SeenOf(v)), Run(v, ops).tlbs)
  }

  ghost predicate TakesOk<A>(p: Program<A>, o: Seen<A>, n: nat) {
    p.takes(o, n) <= n && (n > 0 ==> p.takes(o, n) > 0)
  }

  ghost predicate FlushOk<A>(p: Program<A>, o: Seen<A>, tlbs: seq<Tlb>) {
    |tlbs| == p.mmus ==> p.agrees(o, FlushAll(tlbs))
  }

  ghost predicate StopStands<A>(p: Program<A>, o: Seen<A>) {
    p.asked(o) ==> p.asked(p.next(o))
  }

  /** The law of programs: what a move does to the guest depends on the guest alone, whatever the store TLBs
      hold as long as they agree; flushed ones do; and a request to stop stands. */
  ghost predicate ProgramOk<A(!new)>(p: Program<A>) {
    && (forall v :: MoveOk(p, v))
    && (forall o, n: nat :: TakesOk(p, o, n))
    && (forall o, tlbs :: FlushOk(p, o, tlbs))
    && (forall o :: StopStands(p, o))
  }

  /** The profiler's target. */
  function SimTarget<A>(p: Program<A>): HostTarget<A> {
    Target(
      (m: Host<A>, n: nat) =>
        var moves := p.takes(m.seen, n);
        Stepped(Host(p.After(m.seen, moves), m.exited), moves, p.Count(m.seen, moves)),
      (m: Host<A>) => p.asked(m.seen) && !m.exited,
      (m: Host<A>) => m.(exited := m.exited || p.asked(m.seen)),
      (m: Host<A>) => !m.exited,
      (saved: Host<A>, now: Host<A>) => Host(saved.seen, now.exited),
      (m: Host<A>) => m.seen,
      p.next, p.silent, p.asked, p.entry)
  }

  lemma {:induction false} SimMoves<A>(p: Program<A>, o: Seen<A>, n: nat)
    ensures SimTarget(p).After(o, n) == p.After(o, n) && SimTarget(p).Count(o, n) == p.Count(o, n)
    ensures SimTarget(p).Trace(o, n) == p.Trace(o, n)
  {
    if n > 0 {
      SimMoves(p, o, n - 1);
    }
  }

  /** It obeys all the laws that the profiler supposes. */
  lemma SimIsLawful<A(!new)>(p: Program<A>)
    requires ProgramOk(p)
    ensures Lawful(SimTarget(p))
  {
    var t := SimTarget(p);
    forall m: Host<A>, n: nat ensures StepOk(t, m, n) {
      assert TakesOk(p, m.seen, n);
      SimMoves(p, m.seen, p.takes(m.seen, n));
    }
    forall o ensures AskedOk(t, o) {
      assert StopStands(p, o);
    }
  }

  /** What there is to know of that target: how it stands to a host, ... */
  ghost predicate HostAt<A>(p: Program<A>, t: HostTarget<A>, m: Host<A>) {
    && t.obs(m) == m.seen && t.running(m) == !m.exited
    && t.pending(m) == (p.asked(m.seen) && !m.exited)
    && t.serve(m) == m.(exited := m.exited || p.asked(m.seen))
  }

  /** ... where step_target takes it, ... */
  ghost predicate StepAt<A>(p: Program<A>, t: HostTarget<A>, m: Host<A>, n: nat) {
    var moves := p.Takes(m.seen, n);
    && t.stepTarget(m, n) == Stepped(Host(p.After(m.seen, moves), m.exited), moves, |p.Trace(m.seen, moves)|)
    && p.Trace(m.seen, moves) == t.Trace(m.seen, moves)
  }

  /** ... and where a restore does. */
  ghost predicate RestoreAt<A>(t: HostTarget<A>, saved: Host<A>, now: Host<A>) {
    t.restore(saved, now) == Host(saved.seen, now.exited)
  }

  ghost predicate Drives<A(!new)>(p: Program<A>, t: HostTarget<A>) {
    && ProgramOk(p) && Lawful(t)
    && (forall m :: HostAt(p, t, m))
    && (forall m, n: nat :: StepAt(p, t, m, n))
    && (forall saved, now :: RestoreAt(t, saved, now))
  }

  lemma SimDrives<A(!new)>(p: Program<A>)
    requires ProgramOk(p)
    ensures Drives(p, SimTarget(p))
  {
    SimIsLawful(p);
    forall m: Host<A>, n: nat ensures StepAt(p, SimTarget(p), m, n) {
      SimMoves(p, m.seen, p.takes(m.seen, n));
    }
  }

  /** Serialize, any run of stores, allocations and evictions, deserialize: that is the target's restore. */
  lemma RestoreIsDeserialize<A>(p: Program<A>, saved: Machine<A>, ahead: seq<Op<A>>, was: bool, exited: bool)
    requires WellFormed(saved) && SnapshotOk(saved)
    requires SnapshotOk(Step(saved, Op.Serialize)) && WellFormed(Step(saved, Op.Serialize))
    requires Forward(ahead) && EnabledRun(Step(saved, Op.Serialize), ahead)
    ensures var now := Run(Step(saved, Op.Serialize), ahead);
            && now.armed
            && Host(SeenOf(Step(now, Op.Deserialize)), exited)
               == SimTarget(p).restore(Host(SeenOf(saved), was), Host(SeenOf(now), exited))
  {
    ForwardKeepsSnapshot(Step(saved, Op.Serialize), ahead);
  }

  // ----- the simulator in place

  ghost function HostOf<A>(sim: SimLib<A>, exited: bool): Host<A>
    requires sim.Valid()
    reads sim
  {
    Host(SeenOf(sim.View()), exited)
  }

  /** The simulator can go on with the program, and `message` is that of its last snapshot. */
  ghost predicate Ready<A>(p: Program<A>, sim: SimLib<A>, message: Message<A>)
    reads sim
  {
    sim.Valid() && Fits(p, sim.View()) && sim.Holds(message)
  }

  ghost predicate SameSnapshot<A>(v: Machine<A>, w: Machine<A>) {
    v.snap == w.snap && v.armed == w.armed
  }

  /** One move. */
  method Move<A(!new)>(p: Program<A>, sim: SimLib<A>, held: Message<A>)
    returns (message: Message<A>, mark: seq<TraceEntry>)
    requires ProgramOk(p) && Ready(p, sim, held)
    modifies sim
    ensures Ready(p, sim, message) && SameSnapshot(old(sim.View()), sim.View())
    ensures SeenOf(sim.View()) == p.After(old(SeenOf(sim.View())), 1) && mark == p.Mark(old(SeenOf(sim.View())))
  {
    var seen := Seen(sim.st.Contents(), sim.st.arch);
    var ops := p.ops(seen, TlbViews(sim.st.tlbs));
    assert MoveOk(p, sim.View());
    assert p.After(seen, 1) == p.next(p.After(seen, 0));
    ForwardKeepsSnapshot(sim.View(), ops);
    mark := p.Mark(seen);
    message := sim.ExecuteAll(ops, held);
  }

  lemma OneMore<A>(p: Program<A>, o: Seen<A>, n: nat)
    ensures p.After(p.After(o, n), 1) == p.After(o, n + 1)
    ensures p.Trace(o, n) + p.Mark(p.After(o, n)) == p.Trace(o, n + 1)
  {
    assert p.After(p.After(o, n), 1) == p.next(p.After(p.After(o, n), 0));
  }

  /** step_target. */
  method StepTarget<A(!new)>(p: Program<A>, sim: SimLib<A>, n: nat, held: Message<A>)
    returns (message: Message<A>, trace: seq<TraceEntry>, ghost moves: nat)
    requires ProgramOk(p) && Ready(p, sim, held)
    modifies sim
    ensures Ready(p, sim, message) && SameSnapshot(old(sim.View()), sim.View())
    ensures moves == p.Takes(old(SeenOf(sim.View())), n)
    ensures SeenOf(sim.View()) == p.After(old(SeenOf(sim.View())), moves)
    ensures trace == p.Trace(old(SeenOf(sim.View())), moves)
  {
    ghost var v := sim.View();
    message, trace := held, [];
    var upTo := p.Takes(Seen(sim.st.Contents(), sim.st.arch), n);
    for i := 0 to upTo
      invariant Ready(p, sim, message) && SameSnapshot(v, sim.View())
      invariant SeenOf(sim.View()) == p.After(SeenOf(v), i) && trace == p.Trace(SeenOf(v), i)
    {
      OneMore(p, SeenOf(v), i);
      var mark;
      message, mark := Move(p, sim, message);
      trace := trace + mark;
    }
    moves := upTo;
  }

  /** The loop of run_for at some turn, with the simulator at `r.machine`. */
  ghost predicate InRun<A(!new)>(t: HostTarget<A>, m0: Host<A>, steps: nat, r: Stepped<Host<A>>,
                                 trace: seq<TraceEntry>, stalled: bool)
    requires Lawful(t)
  {
    |trace| == r.committed && Running(t, m0, steps, r, trace, stalled)
  }

  lemma ServeOn<A(!new)>(p: Program<A>, t: HostTarget<A>, m0: Host<A>, steps: nat, r: Stepped<Host<A>>,
                         trace: seq<TraceEntry>)
    requires Drives(p, t) && InRun(t, m0, steps, r, trace, false)
    requires !r.machine.exited && |trace| < steps && p.asked(r.machine.seen)
    ensures InRun(t, m0, steps, r.(machine := Host(r.machine.seen, true)), trace, false)
  {
    assert HostAt(p, t, r.machine);
    RunningServe(t, m0, steps, r, trace);
  }

  lemma StepIs<A(!new)>(p: Program<A>, t: HostTarget<A>, r: Stepped<Host<A>>, n: nat, step: Stepped<Host<A>>,
                        more: seq<TraceEntry>)
    requires Drives(p, t) && !r.machine.exited && !p.asked(r.machine.seen)
    requires step.moves == p.Takes(r.machine.seen, n) && more == p.Trace(r.machine.seen, step.moves)
    requires step.machine == Host(p.After(r.machine.seen, step.moves), false) && step.committed == |more|
    ensures t.running(r.machine) && !t.pending(r.machine)
    ensures step == t.stepTarget(r.machine, n) && more == t.Trace(t.obs(r.machine), step.moves)
  {
    assert HostAt(p, t, r.machine);
    assert StepAt(p, t, r.machine, n);
  }

  /** A chunk of run_for is one step of the target. */
  lemma StepOn<A(!new)>(p: Program<A>, t: HostTarget<A>, m0: Host<A>, steps: nat, r: Stepped<Host<A>>,
                        trace: seq<TraceEntry>, step: Stepped<Host<A>>, more: seq<TraceEntry>)
    requires Drives(p, t) && InRun(t, m0, steps, r, trace, false)
    requires !r.machine.exited && |trace| < steps && !p.asked(r.machine.seen)
    requires step.moves == p.Takes(r.machine.seen, Chunk(steps - |trace|))
    requires more == p.Trace(r.machine.seen, step.moves)
    requires step.machine == Host(p.After(r.machine.seen, step.moves), false) && step.committed == |more|
    ensures InRun(t, m0, steps, Join(r, step), trace + more, more == [])
  {
    StepIs(p, t, r, Chunk(steps - |trace|), step, more);
    RunningStep(t, m0, steps, r, trace);
  }

  /** The body of the loop: a request to stop is served, or a chunk is run. */
  method RunTurn<A(!new)>(
    p: Program<A>, t: HostTarget<A>, sim: SimLib<A>, held: Message<A>, ghost m0: Host<A>, steps: nat, exited0: bool,
    trace0: seq<TraceEntry>, ghost r0: Stepped<Host<A>>)
    returns (message: Message<A>, exited: bool, trace: seq<TraceEntry>, stalled: bool, ghost r: Stepped<Host<A>>)
    requires Drives(p, t) && Ready(p, sim, held) && r0.machine == HostOf(sim, exited0)
    requires InRun(t, m0, steps, r0, trace0, false) && !exited0 && |trace0| < steps
    modifies sim
    ensures Ready(p, sim, message) && SameSnapshot(old(sim.View()), sim.View()) && r.machine == HostOf(sim, exited)
    ensures InRun(t, m0, steps, r, trace, stalled)
    ensures |trace| >= |trace0| && (|trace| == |trace0| ==> exited || stalled)
  {
    if p.asked(Seen(sim.st.Contents(), sim.st.arch)) {
      ServeOn(p, t, m0, steps, r0, trace0);
      message, exited, trace, stalled, r := held, true, trace0, false, r0.(machine := Host(r0.machine.seen, true));
    } else {
      var more;
      ghost var moves;
      message, more, moves := StepTarget(p, sim, Chunk(steps - |trace0|), held);
      ghost var step := Stepped(HostOf(sim, false), moves, |more|);
      StepOn(p, t, m0, steps, r0, trace0, step, more);
      exited, stalled, trace, r := exited0, more == [], trace0 + more, Join(r0, step);
    }
  }

  lemma RunStarts<A(!new)>(p: Program<A>, t: HostTarget<A>, m0: Host<A>, steps: nat, r: Stepped<Host<A>>)
    requires Drives(p, t) && r == Stepped(m0, 0, 0)
    ensures InRun(t, m0, steps, r, [], false)
  {
  }

  lemma RunEnds<A(!new)>(p: Program<A>, t: HostTarget<A>, m0: Host<A>, steps: nat, r: Stepped<Host<A>>,
                         trace: seq<TraceEntry>, stalled: bool)
    requires Drives(p, t) && InRun(t, m0, steps, r, trace, stalled)
    requires r.machine.exited || |trace| >= steps || stalled
    ensures r == Ran(t, m0, steps) && trace == t.Trace(m0.seen, r.moves)
  {
    assert HostAt(p, t, m0);
    assert HostAt(p, t, r.machine);
  }

  /** sim_lib_t::run_for. */
  method RunForOn<A(!new)>(p: Program<A>, t: HostTarget<A>, sim: SimLib<A>, exited0: bool, steps: nat, held: Message<A>)
    returns (message: Message<A>, exited: bool, trace: seq<TraceEntry>, ghost r: Stepped<Host<A>>)
    requires Drives(p, t) && Ready(p, sim, held)
    modifies sim
    ensures Ready(p, sim, message) && SameSnapshot(old(sim.View()), sim.View())
    ensures r == Ran(t, old(HostOf(sim, exited0)), steps) && r.machine == HostOf(sim, exited)
    ensures trace == t.Trace(old(SeenOf(sim.View())), r.moves)
  {
    ghost var m0, v := HostOf(sim, exited0), sim.View();
    message, exited, trace, r := held, exited0, [], Stepped(m0, 0, 0);
    RunStarts(p, t, m0, steps, r);
    var stalled := false;
    while !exited && |trace| < steps && !stalled
      invariant Ready(p, sim, message) && SameSnapshot(v, sim.View()) && r.machine == HostOf(sim, exited)
      invariant InRun(t, m0, steps, r, trace, stalled)
      decreases steps - |trace|, !exited, !stalled
    {
      message, exited, trace, stalled, r := RunTurn(p, t, sim, message, m0, steps, exited, trace, r);
    }
    RunEnds(p, t, m0, steps, r, trace, stalled);
  }

  // ----- the replay and the round

  /** The body of the do-while loop: the hook at the program counter is called, if there is one, and one
      step is made. */
  method ReplayTurnOn<A(!new), E, F>(
    p: Program<A>, t: HostTarget<A>, u: Update<F, Seen<A>, E>, h: Hooks<F>, sim: SimLib<A>, exited0: bool,
    held: Message<A>, at: nat, p0: Prof<E, F, Seen<A>>, trace0: seq<TraceEntry>, ghost r: Stepped<Host<A>>)
    returns (message: Message<A>, exited: bool, trace: seq<TraceEntry>, prof: Prof<E, F, Seen<A>>, found: bool,
             ghost step: Stepped<Host<A>>)
    requires HooksOk(h) && Drives(p, t) && Ready(p, sim, held) && r.machine == HostOf(sim, exited0)
    modifies sim
    ensures Ready(p, sim, message) && step == Ran(t, r.machine, 1) && step.machine == HostOf(sim, exited)
    ensures trace == trace0 + t.Trace(r.machine.seen, step.moves) && found == (t.Pc(r.machine.seen) in h.starts)
    ensures prof
         == if found then Dispatch(u, h.funcs[t.Pc(r.machine.seen)], r.machine.seen, at + |trace0|, at, p0) else p0
  {
    var seen := Seen(sim.st.Contents(), sim.st.arch);
    prof, found := p0, false;
    var optSa := Found(h.starts, t.Pc(seen));
    if optSa.Some? {
      prof, found := Dispatch(u, h.funcs[optSa.value], seen, at + |trace0|, at, p0), true;
    }
    message, exited, trace, step := RunForOn(p, t, sim, exited0, 1, held);
    trace := trace0 + trace;
  }

  lemma TurnOn<A(!new), E, F>(
    p: Program<A>, t: HostTarget<A>, u: Update<F, Seen<A>, E>, h: Hooks<F>, o: Seen<A>, f: Stepped<Host<A>>, g: nat,
    at: nat, p0: Prof<E, F, Seen<A>>, r: Stepped<Host<A>>, trace: seq<TraceEntry>, turns: nat,
    prof: Prof<E, F, Seen<A>>, found: bool, step: Stepped<Host<A>>, trace': seq<TraceEntry>)
    requires HooksOk(h) && Drives(p, t) && OnTheWay(t, h, o, f, g)
    requires InReplay(t, u, h, o, f, g, at, p0, r.machine, trace, r.moves, p0, turns, false)
    requires step == Ran(t, r.machine, 1) && trace' == trace + t.Trace(r.machine.seen, step.moves)
    requires found == (t.Pc(r.machine.seen) in h.starts)
    requires prof
          == if found then Dispatch(u, h.funcs[t.Pc(r.machine.seen)], r.machine.seen, at + |trace|, at, p0) else p0
    ensures InReplay(t, u, h, o, f, g, at, p0, Join(r, step).machine, trace', Join(r, step).moves, prof,
                     turns + 1, found)
    ensures !found ==> r.moves < Join(r, step).moves <= g
  {
    assert HostAt(p, t, r.machine);
    InReplayTurn(t, u, h, o, f, g, at, p0, r.machine, trace, r.moves, turns, step, t.Trace(r.machine.seen, step.moves),
                 prof, found);
  }

  /** The same in terms of the whole loop. */
  method ReplayStepOn<A(!new), E, F>(
    p: Program<A>, t: HostTarget<A>, u: Update<F, Seen<A>, E>, h: Hooks<F>, sim: SimLib<A>, exited0: bool,
    held: Message<A>, ghost o: Seen<A>, ghost f: Stepped<Host<A>>, ghost g: nat, at: nat, p0: Prof<E, F, Seen<A>>,
    trace0: seq<TraceEntry>, ghost turns: nat, ghost r0: Stepped<Host<A>>)
    returns (message: Message<A>, exited: bool, trace: seq<TraceEntry>, prof: Prof<E, F, Seen<A>>, found: bool,
             ghost r: Stepped<Host<A>>)
    requires HooksOk(h) && Drives(p, t) && Ready(p, sim, held) && r0.machine == HostOf(sim, exited0)
    requires OnTheWay(t, h, o, f, g)
    requires InReplay(t, u, h, o, f, g, at, p0, r0.machine, trace0, r0.moves, p0, turns, false)
    modifies sim
    ensures Ready(p, sim, message) && r.machine == HostOf(sim, exited)
    ensures InReplay(t, u, h, o, f, g, at, p0, r.machine, trace, r.moves, prof, turns + 1, found)
    ensures !found ==> r0.moves < r.moves <= g
  {
    ghost var step;
    message, exited, trace, prof, found, step := ReplayTurnOn(p, t, u, h, sim, exited0, held, at, p0, trace0, r0);
    TurnOn(p, t, u, h, o, f, g, at, p0, r0, trace0, turns, prof, found, step, trace);
    r := Join(r0, step);
  }

  /** The do-while loop, which ends at its landing. */
  method ReplayLoopOn<A(!new), E, F>(
    p: Program<A>, t: HostTarget<A>, u: Update<F, Seen<A>, E>, h: Hooks<F>, sim: SimLib<A>, exited0: bool,
    held: Message<A>, ghost o: Seen<A>, ghost f: Stepped<Host<A>>, ghost g: nat, at: nat, p0: Prof<E, F, Seen<A>>,
    trace0: seq<TraceEntry>)
    returns (message: Message<A>, exited: bool, trace: seq<TraceEntry>, prof: Prof<E, F, Seen<A>>,
             ghost r: Stepped<Host<A>>)
    requires HooksOk(h) && Drives(p, t) && Ready(p, sim, held) && f.machine == HostOf(sim, exited0)
    requires OnTheWay(t, h, o, f, g) && InReplay(t, u, h, o, f, g, at, p0, f.machine, trace0, f.moves, p0, 0, false)
    modifies sim
    ensures Ready(p, sim, message) && r.machine == HostOf(sim, exited)
    ensures InReplay(t, u, h, o, f, g, at, p0, r.machine, trace, r.moves, prof, g - f.moves + 1, true)
  {
    message, exited, trace, prof, r := held, exited0, trace0, p0, f;
    var foundFunction := false;
    ghost var turns := 0;
    while !foundFunction
      invariant Ready(p, sim, message) && r.machine == HostOf(sim, exited)
      invariant InReplay(t, u, h, o, f, g, at, p0, r.machine, trace, r.moves, prof, turns, foundFunction)
      invariant foundFunction || r.moves <= g
      decreases !foundFunction, 1 + g - r.moves
    {
      message, exited, trace, prof, foundFunction, r :=
        ReplayStepOn(p, t, u, h, sim, exited, message, o, f, g, at, p0, trace, turns, r);
      turns := turns + 1;
    }
  }

  /** The fast-forward and the do-while loop, after a restore, when the loop ends. */
  method ReplayOn<A(!new), E, F>(
    p: Program<A>, t: HostTarget<A>, u: Update<F, Seen<A>, E>, h: Hooks<F>, sim: SimLib<A>, exited0: bool,
    held: Message<A>, ghost i: nat, fwdSteps: nat, at: nat, p0: Prof<E, F, Seen<A>>, ghost m0: Host<A>)
    returns (message: Message<A>, exited: bool, trace: seq<TraceEntry>, prof: Prof<E, F, Seen<A>>,
             ghost r: Stepped<Host<A>>)
    requires HooksOk(h) && Drives(p, t) && Ready(p, sim, held) && m0 == HostOf(sim, exited0)
    requires t.obs(m0) == m0.seen && t.Pc(t.After(m0.seen, i)) in h.starts && Lands(t, h, m0, i)
    requires fwdSteps == t.Count(m0.seen, i)
    modifies sim
    ensures Ready(p, sim, message) && r.machine == HostOf(sim, exited)
    ensures Done(r.machine, r.moves, prof) == Replay(t, u, h, m0, i, at, p0) && trace == t.Trace(m0.seen, r.moves)
  {
    message, exited, trace, r := RunForOn(p, t, sim, exited0, FastForward(fwdSteps), held);
    ghost var f, g := r, Landing(t, h, m0, i);
    InReplayStarts(t, u, h, m0, i, f, g, at, p0);
    message, exited, trace, prof, r := ReplayLoopOn(p, t, u, h, sim, exited, message, m0.seen, f, g, at, p0, trace);
  }

  /** serialize_proto: from here the simulator can be rewound to what it is. */
  method Save<A(!new)>(p: Program<A>, sim: SimLib<A>) returns (message: Message<A>)
    requires ProgramOk(p) && sim.Valid() && Fits(p, sim.View())
    modifies sim
    ensures Ready(p, sim, message) && SeenOf(sim.View()) == old(SeenOf(sim.View()))
    ensures sim.View().armed && sim.View().snap == Snapshot(sim.View().mem, sim.View().arch)
  {
    assert FlushOk(p, SeenOf(sim.View()), sim.View().tlbs);
    message := sim.Serialize();
  }

  /** deserialize_proto. */
  method Rewind<A(!new)>(p: Program<A>, t: HostTarget<A>, sim: SimLib<A>, held: Message<A>, exited: bool,
                         ghost m0: Host<A>)
    returns (message: Message<A>)
    requires Drives(p, t) && Ready(p, sim, held)
    requires sim.View().armed && sim.View().snap == Snapshot(m0.seen.mem, m0.seen.arch)
    modifies sim
    ensures Ready(p, sim, message)
    ensures HostOf(sim, exited) == Host(m0.seen, exited)
  {
    assert FlushOk(p, m0.seen, sim.View().tlbs);
    message := sim.Execute(Op.Deserialize, held);
  }

  lemma RewoundIs<A(!new)>(p: Program<A>, t: HostTarget<A>, m0: Host<A>, ran: Stepped<Host<A>>, m: Host<A>)
    requires Drives(p, t) && ran == Ran(t, m0, INSN_PER_CKPT) && m == Host(m0.seen, ran.machine.exited)
    ensures m == Rewound(t, m0) && t.obs(m) == m.seen
  {
    assert HostAt(p, t, m);
    assert RestoreAt(t, m0, ran.machine);
  }

  /** The second half of a round in which something was hooked: rewind and replay.  A replay that never ends
      leaves the guest as restored. */
  method RewindAndReplay<A(!new), E, F>(
    p: Program<A>, t: HostTarget<A>, u: Update<F, Seen<A>, E>, h: Hooks<F>, sim: SimLib<A>, exited0: bool,
    held: Message<A>, m0: Host<A>, fwdSteps: nat, at: nat, p0: Prof<E, F, Seen<A>>, ghost ran: Stepped<Host<A>>)
    returns (exited: bool, hung: bool, trace: seq<TraceEntry>, prof: Prof<E, F, Seen<A>>, ghost r: Stepped<Host<A>>)
    requires HooksOk(h) && Drives(p, t) && Ready(p, sim, held)
    requires sim.View().armed && sim.View().snap == Snapshot(m0.seen.mem, m0.seen.arch)
    requires ran == Ran(t, m0, INSN_PER_CKPT) && ran.machine == HostOf(sim, exited0)
    requires t.obs(m0) == m0.seen && IsRewound(t, h, m0) && fwdSteps == t.Count(m0.seen, Hooked(t, h, m0))
    modifies sim
    ensures sim.Valid() && Fits(p, sim.View()) && r.machine == HostOf(sim, exited)
    ensures Replay(t, u, h, Rewound(t, m0), Hooked(t, h, m0), at, p0)
         == if hung then Hung(p0) else Done(r.machine, r.moves, prof)
    ensures if hung then prof == p0 && r.machine.seen == m0.seen else trace == t.Trace(m0.seen, r.moves)
  {
    var message := Rewind(p, t, sim, held, exited0, m0);
    var m, i := Host(m0.seen, exited0), Hooked(t, h, m0);
    RewoundIs(p, t, m0, ran, m);
    exited, hung := exited0, !Lands(t, h, m, i);
    if hung {
      trace, prof, r := [], p0, Stepped(m, 0, 0);
    } else {
      message, exited, trace, prof, r := ReplayOn(p, t, u, h, sim, exited, message, i, fwdSteps, at, p0, m);
    }
  }

  /** One trip round the loop of profiler_t::run. */
  method RoundOn<A(!new), E, F>(
    p: Program<A>, t: HostTarget<A>, u: Update<F, Seen<A>, E>, h: Hooks<F>, sim: SimLib<A>, exited0: bool, at: nat,
    p0: Prof<E, F, Seen<A>>)
    returns (exited: bool, hung: bool, trace: seq<TraceEntry>, prof: Prof<E, F, Seen<A>>, ghost r: Stepped<Host<A>>)
    requires HooksOk(h) && Drives(p, t) && sim.Valid() && Fits(p, sim.View())
    modifies sim
    ensures sim.Valid() && Fits(p, sim.View()) && r.machine == HostOf(sim, exited)
    ensures Round(t, u, h, old(HostOf(sim, exited0)), at, p0)
         == if hung then Hung(prof) else Done(r.machine, r.moves, prof)
    ensures if hung then r.machine.seen == old(SeenOf(sim.View()))
            else trace == t.Trace(old(SeenOf(sim.View())), r.moves)
  {
    var m0 := Host(Seen(sim.st.Contents(), sim.st.arch), exited0);
    assert HostAt(p, t, m0);
    var message := Save(p, sim);
    message, exited, trace, r := RunForOn(p, t, sim, exited0, INSN_PER_CKPT, message);
    var rewind, fwdSteps, popcnt := Scan(h, trace);
    ScanFindsHook(t, h, m0, rewind, fwdSteps);
    prof := PopAll(p0, popcnt);
    hung := false;
    RoundAfterScan(t, u, h, m0, at, p0, r, prof);
    if rewind {
      exited, hung, trace, prof, r := RewindAndReplay(p, t, u, h, sim, exited, message, m0, fwdSteps, at, prof, r);
    }
  }

  // ----- any number of rounds

  lemma NextOn<A(!new), E, F>(
    t: HostTarget<A>, u: Update<F, Seen<A>, E>, h: Hooks<F>, o: Seen<A>, p0: Prof<E, F, Seen<A>>, a: nat,
    c: Stepped<Host<A>>, p: Prof<E, F, Seen<A>>, submitted: seq<seq<TraceEntry>>, left: nat,
    hung: bool, p': Prof<E, F, Seen<A>>, r: Stepped<Host<A>>, trace: seq<TraceEntry>,
    c': Stepped<Host<A>>, submitted': seq<seq<TraceEntry>>)
    returns (a': nat, upTo: nat)
    requires HooksOk(h) && Lawful(t) && t.running(c.machine) && Traced(t, o, a, c.machine, submitted) && left > 0
    requires Genuine(t, p.calls) ==> p == Reference(t, u, h, SegmentClock(submitted), o, 0, p0, a)
    requires Round(t, u, h, c.machine, t.Count(o, a), p)
          == if hung then Hung(p') else Done(r.machine, r.moves, p')
    requires !hung ==> trace == t.Trace(t.obs(c.machine), r.moves)
    requires c' == (if hung then c else r) && submitted' == if hung then submitted else submitted + [trace]
    ensures Rounded(t, u, h, o, p0, a', c'.machine, p', submitted', hung, upTo, a, c.machine)
    ensures t.Count(o, a') == t.Count(o, a) + if hung then 0 else |trace|
    ensures Genuine(t, p.calls) && CleanRun(t, h, c.machine, left)
       <==> Genuine(t, p'.calls) && (hung || CleanRun(t, h, c'.machine, left - 1))
  {
    var out := Round(t, u, h, c.machine, t.Count(o, a), p);
    a', upTo := RoundNext(t, u, h, o, p0, a, c.machine, p, submitted, out, trace, c'.machine, submitted');
    RoundKeepsGenuine(t, u, h, c.machine, t.Count(o, a), p, out, c'.machine, left);
  }

  /** The body of the loop of profiler_t::run, with its bookkeeping. */
  method NextRoundOn<A(!new), E, F>(
    p: Program<A>, t: HostTarget<A>, u: Update<F, Seen<A>, E>, h: Hooks<F>, sim: SimLib<A>, exited0: bool,
    ghost o: Seen<A>, ghost p0: Prof<E, F, Seen<A>>, ghost a: nat, at: nat, ghost c: Stepped<Host<A>>,
    prof0: Prof<E, F, Seen<A>>, submitted0: seq<seq<TraceEntry>>, ghost left: nat)
    returns (exited: bool, hung: bool, prof: Prof<E, F, Seen<A>>, at': nat, submitted: seq<seq<TraceEntry>>,
             ghost a': nat, ghost upTo: nat, ghost c': Stepped<Host<A>>)
    requires HooksOk(h) && Drives(p, t) && sim.Valid() && Fits(p, sim.View()) && c.machine == HostOf(sim, exited0)
    requires t.running(c.machine) && Traced(t, o, a, c.machine, submitted0) && at == t.Count(o, a) && left > 0
    requires Genuine(t, prof0.calls) ==> prof0 == Reference(t, u, h, SegmentClock(submitted0), o, 0, p0, a)
    modifies sim
    ensures sim.Valid() && Fits(p, sim.View())
    ensures c'.machine.seen == SeenOf(sim.View()) && (!hung ==> c'.machine == HostOf(sim, exited))
    ensures Rounded(t, u, h, o, p0, a', c'.machine, prof, submitted, hung, upTo, a, c.machine)
    ensures at' == t.Count(o, a')
    ensures Genuine(t, prof0.calls) && CleanRun(t, h, c.machine, left)
       <==> Genuine(t, prof.calls) && (hung || CleanRun(t, h, c'.machine, left - 1))
  {
    assert HostAt(p, t, c.machine);
    var trace;
    exited, hung, trace, prof, c' := RoundOn(p, t, u, h, sim, exited0, at, prof0);
    ghost var r := c';
    at', submitted := at, submitted0;
    if hung {
      c' := c;
    } else {
      at', submitted := at + |trace|, submitted0 + [trace];
    }
    a', upTo := NextOn(t, u, h, o, p0, a, c, prof0, submitted0, left, hung, prof, r, trace, c', submitted);
  }

  /** The state of the loop with at most `left` rounds to go; it began with `c0`. */
  ghost predicate InRounds<A(!new), E, F>(
    t: HostTarget<A>, u: Update<F, Seen<A>, E>, h: Hooks<F>, c0: Stepped<Host<A>>, p0: Prof<E, F, Seen<A>>,
    rounds: nat, left: nat, n: nat, c: Stepped<Host<A>>, p: Prof<E, F, Seen<A>>, submitted: seq<seq<TraceEntry>>,
    hung: bool, upTo: nat, at: nat, last: Stepped<Host<A>>)
    requires HooksOk(h) && Lawful(t)
  {
    && Rounded(t, u, h, c0.machine.seen, p0, n, c.machine, p, submitted, hung, upTo, at, last.machine)
    && (Genuine(t, p0.calls) && CleanRun(t, h, c0.machine, rounds)
        <==> Genuine(t, p.calls) && (hung || CleanRun(t, h, c.machine, left)))
  }

  lemma RoundsStart<A(!new), E, F>(
    p: Program<A>, t: HostTarget<A>, u: Update<F, Seen<A>, E>, h: Hooks<F>, c0: Stepped<Host<A>>,
    p0: Prof<E, F, Seen<A>>, rounds: nat)
    requires HooksOk(h) && Drives(p, t)
    ensures InRounds(t, u, h, c0, p0, rounds, rounds, 0, c0, p0, [], false, 0, 0, c0)
  {
    assert HostAt(p, t, c0.machine);
    RoundedAtStart(t, u, h, c0.machine, p0);
  }

  lemma RoundsEnd<A(!new), E, F>(
    p: Program<A>, t: HostTarget<A>, u: Update<F, Seen<A>, E>, h: Hooks<F>, c0: Stepped<Host<A>>,
    p0: Prof<E, F, Seen<A>>, rounds: nat, left: nat, n: nat, c: Stepped<Host<A>>, prof: Prof<E, F, Seen<A>>,
    submitted: seq<seq<TraceEntry>>, hung: bool, upTo: nat, at: nat, last: Stepped<Host<A>>)
    requires HooksOk(h) && Drives(p, t) && p0.calls == []
    requires InRounds(t, u, h, c0, p0, rounds, left, n, c, prof, submitted, hung, upTo, at, last)
    requires left == 0 || hung || c.machine.exited
    ensures FollowsGuest(t, u, h, c0.machine, p0, rounds, n, c.machine, prof, submitted, hung, upTo, at, last.machine)
    ensures t.Count(c0.machine.seen, n) == |Flat(submitted)|
  {
    assert HostAt(p, t, c0.machine);
    assert HostAt(p, t, c.machine);
    RoundsFollow(t, u, h, c0.machine, c0.machine.seen, p0, rounds, n, c.machine, prof, submitted, hung, upTo, at,
                 last.machine);
  }

  /** One round more. */
  method RoundsTurn<A(!new), E, F>(
    p: Program<A>, t: HostTarget<A>, u: Update<F, Seen<A>, E>, h: Hooks<F>, sim: SimLib<A>, exited0: bool,
    ghost c0: Stepped<Host<A>>, ghost p0: Prof<E, F, Seen<A>>, ghost rounds: nat, ghost left: nat,
    ghost n0: nat, at0: nat, ghost c: Stepped<Host<A>>, prof0: Prof<E, F, Seen<A>>, submitted0: seq<seq<TraceEntry>>,
    ghost upTo0: nat, ghost before: nat, ghost last: Stepped<Host<A>>)
    returns (exited: bool, hung: bool, prof: Prof<E, F, Seen<A>>, at: nat, submitted: seq<seq<TraceEntry>>,
             ghost n: nat, ghost upTo: nat, ghost c': Stepped<Host<A>>)
    requires HooksOk(h) && Drives(p, t) && sim.Valid() && Fits(p, sim.View()) && c.machine == HostOf(sim, exited0)
    requires InRounds(t, u, h, c0, p0, rounds, left, n0, c, prof0, submitted0, false, upTo0, before, last)
    requires at0 == t.Count(c0.machine.seen, n0) && left > 0 && !exited0
    modifies sim
    ensures sim.Valid() && Fits(p, sim.View())
    ensures c'.machine.seen == SeenOf(sim.View()) && (!hung ==> c'.machine == HostOf(sim, exited))
    ensures InRounds(t, u, h, c0, p0, rounds, left - 1, n, c', prof, submitted, hung, upTo, n0, c)
    ensures at == t.Count(c0.machine.seen, n)
  {
    assert HostAt(p, t, c.machine);
    RoundedGoesOn(t, u, h, c0.machine.seen, p0, n0, c.machine, prof0, submitted0, upTo0, before, last.machine);
    exited, hung, prof, at, submitted, n, upTo, c' :=
      NextRoundOn(p, t, u, h, sim, exited0, c0.machine.seen, p0, n0, at0, c, prof0, submitted0, left);
  }

  /** The loop of profiler_t::run. */
  method RoundsOn<A(!new), E, F>(
    p: Program<A>, t: HostTarget<A>, u: Update<F, Seen<A>, E>, h: Hooks<F>, sim: SimLib<A>, exited0: bool,
    p0: Prof<E, F, Seen<A>>, rounds: nat, ghost c0: Stepped<Host<A>>)
    returns (exited: bool, hung: bool, prof: Prof<E, F, Seen<A>>, timestamp: nat, submitted: seq<seq<TraceEntry>>,
             ghost moves: nat, ghost upTo: nat, ghost at: nat, ghost c: Stepped<Host<A>>, ghost last: Stepped<Host<A>>)
    requires HooksOk(h) && Drives(p, t) && p0.calls == []
    requires sim.Valid() && Fits(p, sim.View()) && c0.machine == HostOf(sim, exited0)
    modifies sim
    ensures sim.Valid() && Fits(p, sim.View())
    ensures c.machine.seen == SeenOf(sim.View()) && (!hung ==> c.machine == HostOf(sim, exited))
    ensures FollowsGuest(t, u, h, c0.machine, p0, rounds, moves, c.machine, prof, submitted, hung, upTo, at,
                         last.machine)
    ensures timestamp == |Flat(submitted)|
  {
    c, last := c0, c0;
    exited, hung, prof, timestamp, submitted, moves, upTo, at := exited0, false, p0, 0, [], 0, 0, 0;
    RoundsStart(p, t, u, h, c0, p0, rounds);
    var left := rounds;
    while left > 0 && !hung && !exited
      invariant sim.Valid() && Fits(p, sim.View())
      invariant c.machine.seen == SeenOf(sim.View()) && (!hung ==> c.machine == HostOf(sim, exited))
      invariant InRounds(t, u, h, c0, p0, rounds, left, moves, c, prof, submitted, hung, upTo, at, last)
      invariant timestamp == t.Count(c0.machine.seen, moves)
    {
      ghost var n, before := moves, c;
      exited, hung, prof, timestamp, submitted, moves, upTo, c :=
        RoundsTurn(p, t, u, h, sim, exited, c0, p0, rounds, left, moves, timestamp, c, prof, submitted, upTo, at, last);
      at, last, left := n, before, left - 1;
    }
    RoundsEnd(p, t, u, h, c0, p0, rounds, left, moves, c, prof, submitted, hung, upTo, at, last);
  }

  /** profiler_t::run on the simulator, in either memory mode, watched after any number of rounds: what comes
      of the simulator, in terms of the guest alone, is what FollowsGuest says.  `m` is the simulator's state, but
      for the exit code when the replay never ends.  (Lawful is no further condition, by SimIsLawful.) */
  method Profile<A(!new), E, F>(
    p: Program<A>, u: Update<F, Seen<A>, E>, h: Hooks<F>, sim: SimLib<A>, core: Core<E>, rounds: nat)
    returns (exited: bool, hung: bool, prof: Prof<E, F, Seen<A>>, timestamp: nat, submitted: seq<seq<TraceEntry>>,
             ghost moves: nat, ghost upTo: nat, ghost at: nat, ghost m: Host<A>, ghost last: Host<A>)
    requires HooksOk(h) && ProgramOk(p) && Lawful(SimTarget(p)) && sim.Valid() && Fits(p, sim.View())
    modifies sim
    ensures sim.Valid() && Fits(p, sim.View())
    ensures m.seen == SeenOf(sim.View()) && (!hung ==> m.exited == exited)
    ensures FollowsGuest(SimTarget(p), u, h, old(HostOf(sim, false)), Prof(core, false, []), rounds,
                         moves, m, prof, submitted, hung, upTo, at, last)
    ensures timestamp == |Flat(submitted)|
  {
    SimDrives(p);
    ghost var c0 := Stepped(HostOf(sim, false), 0, 0);
    ghost var c, before;
    exited, hung, prof, timestamp, submitted, moves, upTo, at, c, before :=
      RoundsOn(p, SimTarget(p), u, h, sim, false, Prof(core, false, []), rounds, c0);
    m, last := c.machine, before.machine;
  }

  // ----- a guest that stores

  /** A byte for the first page, stored through the TLB. */
  function ByteReq(count: int): (r: StoreReq)
    ensures r.Intrapage() && r.Index() == 0 && r.Vpn() == 0 && r.Ppn() == 0 && r.Offset() == 0
  {
    StoreReq(0, 0, [(count % 256) as byte], false, true, false, true, false)
  }

  function WithByte(mem: Memory, count: int): Memory {
    var touched := Touch(mem, 0);
    if |touched[0]| == 0 then touched else touched[0 := Overlay(touched[0], 0, ByteReq(count).bytes)]
  }

  /** A guest on one core that stores its instruction count at each instruction, and asks to stop at `stop`.
      Its store TLB is good as long as it maps the first page to itself. */
  function Writer(stop: int): Program<int> {
    Program(
      (o: Seen<int>, tlbs: seq<Tlb>) => [Store(0, ByteReq(o.arch)), SetArch(o.arch + 1)],
      (o: Seen<int>) => Seen(WithByte(o.mem, o.arch), o.arch + 1),
      (o: Seen<int>, n: nat) => n,
      (o: Seen<int>) => false,
      (o: Seen<int>) => o.arch >= stop,
      (o: Seen<int>) => TraceEntry(if o.arch < 0 then 0 else o.arch, 0, 0),
      (o: Seen<int>, tlbs: seq<Tlb>) =>
        |tlbs| == 1 && |tlbs[0]| == TLB_ENTRIES && (tlbs[0][0].Slot? && tlbs[0][0].vpn == 0 ==> tlbs[0][0].ppn == 0),
      1, 1)
  }

  lemma WriterStores(stop: int, v: Machine<int>)
    requires Fits(Writer(stop), v)
    ensures Stored(v, 0, ByteReq(v.arch)).mem == WithByte(v.mem, v.arch)
    ensures Writer(stop).agrees(SeenOf(v), Stored(v, 0, ByteReq(v.arch)).tlbs)
  {
    assert TlbWellFormed(v.mem, v.tlbs[0]);
  }

  lemma RunOne<A>(m: Machine<A>, a: Op<A>)
    requires WellFormed(m) && SnapshotOk(m) && Enabled(m, a)
    ensures EnabledRun(m, [a]) && Run(m, [a]) == Step(m, a)
  {
    StepWellFormed(m, a);
    assert [a][1..] == [];
    assert EnabledRun(Step(m, a), []);
  }

  lemma RunTwo<A>(m: Machine<A>, a: Op<A>, b: Op<A>, n: Machine<A>)
    requires WellFormed(m) && SnapshotOk(m) && Enabled(m, a) && n == Step(m, a)
    requires WellFormed(n) && SnapshotOk(n) && Enabled(n, b)
    ensures EnabledRun(m, [a, b]) && Run(m, [a, b]) == Step(n, b)
  {
    StepWellFormed(n, b);
    RunOne(n, b);
    assert [a, b][1..] == [b];
  }

  lemma WriterMoves(stop: int, v: Machine<int>)
    ensures MoveOk(Writer(stop), v)
  {
    if Fits(Writer(stop), v) {
      WriterStores(stop, v);
      var store, count := Op<int>.Store(0, ByteReq(v.arch)), Op<int>.SetArch(v.arch + 1);
      StepWellFormed(v, store);
      RunTwo(v, store, count, Step(v, store));
    }
  }

  lemma WriterIsOk(stop: int)
    ensures ProgramOk(Writer(stop))
  {
    forall v ensures MoveOk(Writer(stop), v) {
      WriterMoves(stop, v);
    }
  }

  lemma WriterIsClean<F>(stop: int, h: Hooks<F>, m: Host<int>, rounds: nat)
    requires Lawful(SimTarget(Writer(stop)))
    ensures CleanRun(SimTarget(Writer(stop)), h, m, rounds)
  {
    var t := SimTarget(Writer(stop));
    forall j: nat ensures SilentUnhooked(t, h, t.After(t.obs(m), j)) {
    }
    NoSilentHookIsClean(t, h, m, rounds);
  }

  /** On a new simulator, in either mode and with any hooks, its trace is whole, though its memory is rewound
      again and again, and the hooks are called for the hooked instructions, in order. */
  method ProfileWriter<E, F>(serializeMem: bool, stop: int, u: Update<F, Seen<int>, E>, h: Hooks<F>, core: Core<E>,
                             rounds: nat)
    returns (sim: SimLib<int>, prof: Prof<E, F, Seen<int>>, submitted: seq<seq<TraceEntry>>,
             ghost moves: nat, ghost upTo: nat)
    requires HooksOk(h)
    ensures fresh(sim) && sim.Valid()
    ensures SeenOf(sim.View()) == SimTarget(Writer(stop)).After(Seen(map[], 0), moves)
    ensures Flat(submitted) == SimTarget(Writer(stop)).Trace(Seen(map[], 0), moves)
    ensures prof.calls == HookedCalls(SimTarget(Writer(stop)), h, SegmentClock(submitted), Seen(map[], 0), 0, upTo)
  {
    WriterIsOk(stop);
    SimIsLawful(Writer(stop));
    sim := new SimLib<int>(serializeMem, 1, 1, 0);
    var exited, hung, timestamp;
    ghost var at, m, last;
    WriterIsClean(stop, h, Host(Seen(map[], 0), false), rounds);
    exited, hung, prof, timestamp, submitted, moves, upTo, at, m, last :=
      Profile(Writer(stop), u, h, sim, core, rounds);
  }
}
