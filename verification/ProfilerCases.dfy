/** Guests for which the chunked loop goes wrong. */
module ProfilerCases {
  import opened Common
  import opened Guest
  import opened Hooking
  import opened Profiler

  /** A guest that counts.  It asks to stop at `stop`, and the host's exit code is all there is besides. */
  datatype Counter = Counter(count: int, exited: bool)

  function CountTo(stop: int): Target<Counter, int> {
    Target(
      (m: Counter, n: nat) => Stepped(m.(count := m.count + n), n, n),
      (m: Counter) => m.count >= stop && !m.exited,
      (m: Counter) => m.(exited := m.exited || m.count >= stop),
      (m: Counter) => !m.exited,
      (saved: Counter, m: Counter) => saved.(exited := m.exited),
      (m: Counter) => m.count,
      (o: int) => o + 1,
      (o: int) => false,
      (o: int) => o >= stop,
      (o: int) => TraceEntry(if o < 0 then 0 else o, 0, 0))
  }

  lemma {:induction false} CountsOn(stop: int, o: int, n: nat)
    ensures CountTo(stop).After(o, n) == o + n && CountTo(stop).Count(o, n) == n
  {
    if n > 0 {
      CountsOn(stop, o, n - 1);
    }
  }

  lemma CounterIsLawful(stop: int)
    ensures Lawful(CountTo(stop))
  {
    var t := CountTo(stop);
    forall m: Counter, n: nat ensures StepOk(t, m, n) {
      CountsOn(stop, m.count, n);
    }
  }

  lemma {:induction false} CounterRuns(stop: int, count: int, steps: nat)
    requires Lawful(CountTo(stop)) && count + steps <= stop
    ensures Ran(CountTo(stop), Counter(count, false), steps) == Stepped(Counter(count + steps, false), steps, steps)
    decreases steps
  {
    if steps > 0 {
      CounterRuns(stop, count + Chunk(steps), steps - Chunk(steps));
    }
  }

  function HookAt(pc: nat, exits: seq<nat>): (h: Hooks<()>)
    ensures HooksOk(h)
  {
    Hooks(map[pc := ()], [pc], exits)
  }

  lemma CounterIsClean(stop: int, h: Hooks<()>, m: Counter)
    requires Lawful(CountTo(stop))
    ensures Clean(CountTo(stop), h, m)
  {
  }

  /** The counter that has been asked to stop before its run-ahead is over. */
  lemma CounterStops(stop: int)
    requires 0 < stop <= 5000 && Lawful(CountTo(stop))
    ensures Ran(CountTo(stop), Counter(0, false), INSN_PER_CKPT) == Stepped(Counter(5000, true), 5000, 5000)
  {
    var t := CountTo(stop);
    assert Ran(t, Counter(5000, true), 95000) == Stepped(Counter(5000, true), 0, 0);
    assert Ran(t, Counter(5000, false), 95000) == Stepped(Counter(5000, true), 0, 0);
  }

  /** The first instruction but one is hooked, the guest asks to stop only later: the run-ahead serves the
      request, the restore leaves the target stopped, and the replay waits for ever. */
  lemma ExitAfterHookHangs<E>(u: Update<(), int, E>, p: Prof<E, (), int>)
    ensures Lawful(CountTo(2)) && !CountTo(2).asked(0) && !CountTo(2).asked(1)
    ensures Round(CountTo(2), u, HookAt(1, []), Counter(0, false), 0, p).Hung?
  {
    var t, h, m := CountTo(2), HookAt(1, []), Counter(0, false);
    CounterIsLawful(2);
    CounterStops(2);
    CountsOn(2, 0, 0);
    CountsOn(2, 0, 1);
    FirstHookIs(t, h, 0, 5000, 1);
    CounterIsClean(2, h, m);
    RoundEndsExactlyWhen(t, u, h, m, 0, p);
  }

  lemma CounterLeavesHook()
    requires Lawful(CountTo(1))
    ensures LeavesHook(CountTo(1), HookAt(0, []), Counter(0, false))
    ensures Looked(CountTo(1), HookAt(0, []), Counter(0, false)) == 1
  {
    CounterStops(1);
    CountsOn(1, 0, 0);
    FirstHookIs(CountTo(1), HookAt(0, []), 0, 5000, 0);
    CounterIsClean(1, HookAt(0, []), Counter(0, false));
    CleanRoundLeavesExactlyWhen(CountTo(1), HookAt(0, []), Counter(0, false));
  }

  /** The very next instruction is hooked, and the guest asks to stop after it: the run-ahead serves the
      request, and after the restore the hook is called and its instruction is not executed. */
  lemma HookWithoutInstruction<E>(u: Update<(), int, E>, p: Prof<E, (), int>)
    returns (out: Outcome<Counter, E, (), int>)
    ensures Lawful(CountTo(1)) && !CountTo(1).asked(0)
    ensures out == Round(CountTo(1), u, HookAt(0, []), Counter(0, false), 0, p)
    ensures out.Done? && out.n == 0 && CallsAt(p, out.p, 0)
  {
    CounterIsLawful(1);
    out := Round(CountTo(1), u, HookAt(0, []), Counter(0, false), 0, p);
    CounterSegment(u, p, out);
  }

  lemma CounterSegment<E>(u: Update<(), int, E>, p: Prof<E, (), int>, out: Outcome<Counter, E, (), int>)
    requires Lawful(CountTo(1)) && out == Round(CountTo(1), u, HookAt(0, []), Counter(0, false), 0, p)
    ensures out.Done? && out.n == 0 && CallsAt(p, out.p, 0)
  {
    var t, h, m := CountTo(1), HookAt(0, []), Counter(0, false);
    CounterLeavesHook();
    CounterIsClean(1, h, m);
    EmptySegment(t, u, h, m, 0, p, out);
  }

  /** Without a request to stop, the hook at the first instruction but one is called with time 0, though it
      is at 1. */
  lemma HookReadsStaleTime<E>(u: Update<(), int, E>, p: Prof<E, (), int>)
    ensures Lawful(CountTo(200000))
    ensures var out := Round(CountTo(200000), u, HookAt(1, []), Counter(0, false), 0, p);
            out.Done? && |out.p.calls| == |p.calls| + 1
            && out.p.calls[|p.calls|].at == 1 && out.p.calls[|p.calls|].time == 0
  {
    var t, h, m := CountTo(200000), HookAt(1, []), Counter(0, false);
    CounterIsLawful(200000);
    CounterRuns(200000, 0, INSN_PER_CKPT);
    CountsOn(200000, 0, 0);
    CountsOn(200000, 0, 1);
    FirstHookIs(t, h, 0, INSN_PER_CKPT, 1);
    CounterIsClean(200000, h, m);
    RoundEndsExactlyWhen(t, u, h, m, 0, p);
    CleanLands(t, h, m);
    RoundTime(t, u, h, m, 0, p);
  }

  // ----- an interrupt at a hooked address

  /** A guest that is interrupted just before the hooked instruction at 7, in state 1; the handler, at 100,
      returns there. */
  function Interrupted(): Target<int, int> {
    Target(
      (m: int, n: nat) => StepInterrupted(m, n),
      (m: int) => false,
      (m: int) => m,
      (m: int) => true,
      (saved: int, m: int) => saved,
      (m: int) => m,
      (o: int) => o + 1,
      (o: int) => o == 1,
      (o: int) => false,
      (o: int) => TraceEntry(if o == 1 || o == 3 then 7 else if o == 2 then 100 else 200, 0, 0))
  }

  /** A step ends with the interrupt. */
  function StepInterrupted(m: int, n: nat): Stepped<int> {
    if m <= 1 < m + n then Stepped(2, 2 - m, 1 - m) else Stepped(m + n, n, n)
  }

  lemma {:induction false} InterruptedMoves(o: int, n: nat)
    ensures Interrupted().After(o, n) == o + n
    ensures Interrupted().Count(o, n) == if o <= 1 < o + n then n - 1 else n
  {
    if n > 0 {
      InterruptedMoves(o, n - 1);
    }
  }

  lemma InterruptedIsLawful()
    ensures Lawful(Interrupted())
  {
    forall m: int, n: nat ensures StepOk(Interrupted(), m, n) {
      InterruptedMoves(m, StepInterrupted(m, n).moves);
    }
  }

  lemma {:induction false} InterruptedRuns(m: int, steps: nat)
    requires Lawful(Interrupted()) && m >= 2
    ensures Ran(Interrupted(), m, steps) == Stepped(m + steps, steps, steps)
    decreases steps
  {
    if steps > 0 {
      InterruptedRuns(m + Chunk(steps), steps - Chunk(steps));
    }
  }

  const Hook7: Hooks<()> := HookAt(7, [100])

  /** A hook that changes nothing. */
  function Idle<E>(): Update<(), int, E> {
    (f: (), o: int, c: Core<E>, now: nat) => (c, None)
  }

  /** In the first round the scan finds the hooked instruction, three moves on, and one exit before it; the
      replay finds the hooked address after one move. */
  lemma FirstRound()
    requires Lawful(Interrupted())
    ensures Hooked(Interrupted(), Hook7, 0) == 3 && IsRewound(Interrupted(), Hook7, 0)
    ensures Exits(Interrupted(), Hook7, 0, 3) == 1
    ensures Rewound(Interrupted(), 0) == 0
  {
    var t := Interrupted();
    InterruptedRuns(2, 99999);
    assert Ran(t, 0, INSN_PER_CKPT) == Join(Stepped(2, 2, 1), Ran(t, 2, 99999));
    InterruptedMoves(0, 0);
    InterruptedMoves(0, 1);
    InterruptedMoves(0, 2);
    InterruptedMoves(0, 3);
    FirstHookIs(t, Hook7, 0, 100001, 3);
    assert Exits(t, Hook7, 0, 2) == 0;
  }

  lemma FirstLanding()
    requires Lawful(Interrupted())
    ensures Landing(Interrupted(), Hook7, 0, 3) == 1 && Lands(Interrupted(), Hook7, 0, 3)
    ensures Forwarded(Interrupted(), 0, 3) == Stepped(0, 0, 0)
  {
    InterruptedMoves(0, 0);
    InterruptedMoves(0, 1);
    InterruptedMoves(0, 3);
    assert FastForward(Interrupted().Count(0, 3)) == 0;
    assert Unhooked(Interrupted(), Hook7, 0, 0, Landing(Interrupted(), Hook7, 0, 3));
  }

  /** In the second, one move on. */
  lemma SecondRound()
    requires Lawful(Interrupted())
    ensures Hooked(Interrupted(), Hook7, 2) == 1 && IsRewound(Interrupted(), Hook7, 2)
    ensures Exits(Interrupted(), Hook7, 2, 1) == 1
    ensures Clean(Interrupted(), Hook7, 2)
  {
    InterruptedRuns(2, INSN_PER_CKPT);
    InterruptedMoves(2, 0);
    InterruptedMoves(2, 1);
    FirstHookIs(Interrupted(), Hook7, 2, INSN_PER_CKPT, 1);
    assert Interrupted().After(2, 0) == 2;
  }

  lemma FirstOutcome<E>(p: Prof<E, (), int>, out: Outcome<int, E, (), int>)
    requires Lawful(Interrupted()) && out == Round(Interrupted(), Idle(), Hook7, 0, 0, p)
    ensures out.Done? && out.m == 2 && out.p == Dispatch(Idle(), (), 1, 1, 0, PopMany(p, 1))
  {
    FirstRound();
    FirstLanding();
    RoundEndsExactlyWhen(Interrupted(), Idle<E>(), Hook7, 0, 0, p);
    var g, goesOn := RoundStory(Interrupted(), Idle<E>(), Hook7, 0, 0, p, out);
    assert g <= 1 by {
      CleanLands(Interrupted(), Hook7, 0);
    }
    InterruptedMoves(0, 0);
    InterruptedMoves(0, 1);
    InterruptedMoves(0, 2);
  }

  lemma SecondOutcome<E>(p: Prof<E, (), int>, out: Outcome<int, E, (), int>)
    requires Lawful(Interrupted()) && out == Round(Interrupted(), Idle(), Hook7, 2, 1, p)
    ensures out.Done? && out.p == Dispatch(Idle(), (), 3, 2, 1, PopMany(p, 1))
  {
    SecondRound();
    RoundEndsExactlyWhen(Interrupted(), Idle<E>(), Hook7, 2, 1, p);
    var g, goesOn := RoundStory(Interrupted(), Idle<E>(), Hook7, 2, 1, p, out);
    InterruptedMoves(2, 1);
  }

  lemma PopSeesCore<E>(p: Prof<E, (), int>, q: Prof<E, (), int>)
    requires p.core == q.core
    ensures PopMany(p, 1).core == Pop(q).core
  {
    assert PopMany(p, 1) == Pop(PopMany(p, 0));
  }

  /** The first round calls the hook before the interrupt and ends there; the second calls it again, when
      the instruction is really executed.  And the exit in the handler is popped by both, though it is
      passed once. */
  lemma InterruptedHookIsCalledTwice<E>(p: Prof<E, (), int>)
    returns (first: Outcome<int, E, (), int>, second: Outcome<int, E, (), int>)
    ensures Lawful(Interrupted())
    ensures first == Round(Interrupted(), Idle(), Hook7, 0, 0, p) && first.Done?
    ensures second == Round(Interrupted(), Idle(), Hook7, first.m, 1, first.p) && second.Done?
    ensures |second.p.calls| == |p.calls| + 2
    ensures second.p.calls[|p.calls|].state == 1 && second.p.calls[|p.calls| + 1].state == 3
    ensures second.p.core == Pop(Pop(p)).core
    ensures |HookedCalls(Interrupted(), Hook7, StoppedAt(0), 0, 0, 4)| == 1 && Exits(Interrupted(), Hook7, 0, 4) == 1
  {
    InterruptedIsLawful();
    first := Round(Interrupted(), Idle(), Hook7, 0, 0, p);
    FirstOutcome(p, first);
    second := Round(Interrupted(), Idle(), Hook7, 2, 1, first.p);
    SecondOutcome(first.p, second);
    PopsCallNothing(p, 1);
    PopsCallNothing(first.p, 1);
    PopSeesCore(p, p);
    PopSeesCore(first.p, Pop(p));
    OneHookedCall();
  }

  lemma OneHookedCall()
    ensures |HookedCalls(Interrupted(), Hook7, StoppedAt(0), 0, 0, 4)| == 1 && Exits(Interrupted(), Hook7, 0, 4) == 1
  {
    InterruptedMoves(0, 0);
    InterruptedMoves(0, 1);
    InterruptedMoves(0, 2);
    InterruptedMoves(0, 3);
    assert HookedCalls(Interrupted(), Hook7, StoppedAt(0), 0, 0, 1) == [];
    assert HookedCalls(Interrupted(), Hook7, StoppedAt(0), 0, 0, 2) == [];
    assert HookedCalls(Interrupted(), Hook7, StoppedAt(0), 0, 0, 3) == [];
    assert Exits(Interrupted(), Hook7, 0, 1) == 0;
    assert Exits(Interrupted(), Hook7, 0, 2) == 0;
    assert Exits(Interrupted(), Hook7, 0, 3) == 1;
  }
}
