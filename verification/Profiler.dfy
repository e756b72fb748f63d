/** The run-ahead, scan, rewind, replay loop of profiler_t::run, against the loop that looks at every
    instruction. */
module Profiler {
  import opened CallHistory
  import opened Common
  import opened Guest
  import opened Hooking

  const INSN_PER_CKPT: nat := 100000

  // ----- the scan

  /** found_registered_func_start_addr and found_registered_func_exit_addr: a linear search. */
  method Found(addrs: seq<nat>, va: nat) returns (r: Option<nat>)
    ensures r == if va in addrs then Some(va) else None
  {
    for i := 0 to |addrs|
      invariant va !in addrs[..i]
    {
      if addrs[i] == va {
        return Some(va);
      }
    }
    return None;
  }

  /** The number of exit addresses in a trace. */
  function ExitsIn<F>(h: Hooks<F>, trace: seq<TraceEntry>): nat {
    if trace == [] then 0
    else ExitsIn(h, trace[..|trace| - 1]) + if trace[|trace| - 1].pc in h.exits then 1 else 0
  }

  /** The first i entries hold no start address, and the next one, if there is one, does. */
  predicate FirstIn<F>(h: Hooks<F>, trace: seq<TraceEntry>, i: nat) {
    && i <= |trace|
    && (forall k | 0 <= k < i :: trace[k].pc !in h.starts)
    && (i < |trace| ==> trace[i].pc in h.starts)
  }

  /** The scan of profiler_t::run over a trace: the first start address, and the exits before it. */
  method Scan<F>(h: Hooks<F>, pctrace: seq<TraceEntry>) returns (rewind: bool, fwdSteps: nat, popcnt: nat)
    ensures fwdSteps <= |pctrace| && FirstIn(h, pctrace, if rewind then fwdSteps else |pctrace|)
    ensures rewind ==> fwdSteps < |pctrace|
    ensures popcnt == ExitsIn(h, pctrace[..if rewind then fwdSteps else |pctrace|])
  {
    rewind, fwdSteps, popcnt := false, 0, 0;
    var i := 0;
    while i < |pctrace|
      invariant i <= |pctrace| && forall k | 0 <= k < i :: pctrace[k].pc !in h.starts
      invariant popcnt == ExitsIn(h, pctrace[..i])
    {
      var pc := pctrace[i].pc;
      var start := Found(h.starts, pc);
      if start.Some? {
        return true, i, popcnt;
      }
      var exit := Found(h.exits, pc);
      if exit.Some? {
        popcnt := popcnt + 1;
      }
      assert pctrace[..i + 1][..i] == pctrace[..i];
      i := i + 1;
    }
  }

  /** The first of n moves that is a hooked instruction, or n. */
  function FirstHook<M, F, O>(t: Target<M, O>, h: Hooks<F>, o: O, n: nat): (i: nat)
    ensures i <= n && Quiet(t, h, o, i)
    ensures i < n ==> IsHooked(t, h, t.After(o, i))
  {
    if n == 0 then 0
    else
      var i := FirstHook(t, h, o, n - 1);
      if i == n - 1 && !IsHooked(t, h, t.After(o, i)) then n else i
  }

  lemma FirstHookIs<M, F, O>(t: Target<M, O>, h: Hooks<F>, o: O, n: nat, i: nat)
    requires i <= n && Quiet(t, h, o, i) && (i < n ==> IsHooked(t, h, t.After(o, i)))
    ensures FirstHook(t, h, o, n) == i
  {
    var k := FirstHook(t, h, o, n);
    assert Quiet(t, h, o, k);
  }

  lemma TracePrefix<M, O>(t: Target<M, O>, o: O, i: nat, n: nat)
    requires i <= n
    ensures t.Count(o, i) <= t.Count(o, n) && t.Trace(o, n)[..t.Count(o, i)] == t.Trace(o, i)
  {
    TraceTrace(t, o, i, n - i);
  }

  lemma ExitsSnoc<F>(h: Hooks<F>, trace: seq<TraceEntry>, e: TraceEntry)
    ensures ExitsIn(h, trace + [e]) == ExitsIn(h, trace) + if e.pc in h.exits then 1 else 0
  {
    assert (trace + [e])[..|trace|] == trace;
  }

  /** The exits in the trace are those of the guest. */
  lemma {:induction false} TraceExits<M, F, O>(t: Target<M, O>, h: Hooks<F>, o: O, n: nat)
    ensures ExitsIn(h, t.Trace(o, n)) == Exits(t, h, o, n)
  {
    if n > 0 {
      TraceExits(t, h, o, n - 1);
      var rest, last := t.Trace(o, n - 1), t.After(o, n - 1);
      if t.silent(last) {
        assert rest + [] == rest;
      } else {
        ExitsSnoc(h, rest, t.entry(last));
      }
    }
  }

  lemma {:induction false} QuietTrace<M, F, O>(t: Target<M, O>, h: Hooks<F>, o: O, n: nat)
    requires Quiet(t, h, o, n)
    ensures forall k | 0 <= k < t.Count(o, n) :: t.Trace(o, n)[k].pc !in h.starts
  {
    if n > 0 {
      QuietTrace(t, h, o, n - 1);
      assert !IsHooked(t, h, t.After(o, n - 1));
      var rest, last := t.Trace(o, n - 1), t.After(o, n - 1);
      assert t.Trace(o, n) == if t.silent(last) then rest + [] else rest + [t.entry(last)];
    }
  }

  /** An instruction's entry in a trace that goes on. */
  lemma EntryInTrace<M, O>(t: Target<M, O>, o: O, k: nat, n: nat)
    requires k < n && !t.silent(t.After(o, k))
    ensures t.Count(o, k) < t.Count(o, n) && t.Trace(o, n)[t.Count(o, k)] == t.entry(t.After(o, k))
  {
    var c := t.Count(o, k);
    TracePrefix(t, o, k + 1, n);
    assert t.Trace(o, k + 1)[c] == t.entry(t.After(o, k));
    assert t.Trace(o, n)[c] == t.Trace(o, n)[..c + 1][c];
  }

  lemma HookInTrace<M, F, O>(t: Target<M, O>, h: Hooks<F>, o: O, n: nat, k: nat)
    requires k <= n && Quiet(t, h, o, k) && (k < n ==> IsHooked(t, h, t.After(o, k)))
    ensures FirstIn(h, t.Trace(o, n), t.Count(o, k)) && (k < n ==> t.Count(o, k) < t.Count(o, n))
    ensures ExitsIn(h, t.Trace(o, n)[..t.Count(o, k)]) == Exits(t, h, o, k)
  {
    var c := t.Count(o, k);
    QuietTrace(t, h, o, k);
    TraceExits(t, h, o, k);
    TracePrefix(t, o, k, n);
    var trace := t.Trace(o, n);
    forall j | 0 <= j < c ensures trace[j].pc !in h.starts {
      assert trace[j] == trace[..c][j];
    }
    if k < n {
      EntryInTrace(t, o, k, n);
    }
  }

  /** The scan finds the first hooked instruction of the guest, and counts the exits before it. */
  lemma ScanMeans<M, F, O>(t: Target<M, O>, h: Hooks<F>, o: O, n: nat, i: nat)
    requires FirstIn(h, t.Trace(o, n), i)
    ensures var k := FirstHook(t, h, o, n);
            && i == t.Count(o, k) && (k < n <==> i < t.Count(o, n))
            && ExitsIn(h, t.Trace(o, n)[..i]) == Exits(t, h, o, k)
  {
    HookInTrace(t, h, o, n, FirstHook(t, h, o, n));
  }

  method PopAll<E, F, O>(p0: Prof<E, F, O>, popcnt: nat) returns (p: Prof<E, F, O>)
    ensures p == PopMany(p0, popcnt)
  {
    p := p0;
    for i := 0 to popcnt
      invariant p == PopMany(p0, i)
    {
      p := Pop(p);
    }
  }

  // ----- the replay

  function FastForward(fwdSteps: nat): (n: nat)
    ensures n <= fwdSteps && (fwdSteps > 0 ==> n < fwdSteps)
  {
    if fwdSteps < INTERLEAVE then 0 else fwdSteps - INTERLEAVE
  }

  /** The machine after n turns of the replay loop. */
  function Replayed<M(!new), O(!new)>(t: Target<M, O>, m: M, n: nat): M
    requires Lawful(t)
  {
    if n == 0 then m else Ran(t, Replayed(t, m, n - 1), 1).machine
  }

  /** What it takes to get i moves further: a target that runs, and a guest that does not ask to stop on
      the way. */
  predicate Reaches<M, O>(t: Target<M, O>, m: M, i: nat) {
    i == 0 || (t.running(m) && !t.asked(t.After(t.obs(m), i - 1)))
  }

  /** Each turn of the loop makes one move, as long as the way is free. */
  lemma {:induction false} ReplayedFully<M(!new), O(!new)>(t: Target<M, O>, m: M, n: nat)
    requires Lawful(t) && Reaches(t, m, n)
    ensures t.obs(Replayed(t, m, n)) == t.After(t.obs(m), n)
    ensures t.running(Replayed(t, m, n)) == t.running(m)
  {
    if n > 0 {
      if n > 1 && t.asked(t.After(t.obs(m), n - 2)) {
        AskedStays(t, t.obs(m), n - 2, n - 1);
        assert false;
      }
      ReplayedFully(t, m, n - 1);
      OneStep(t, Replayed(t, m, n - 1));
    }
  }

  /** Otherwise the loop stays short of it for good. */
  lemma {:induction false} ReplayedStuck<M(!new), O(!new)>(t: Target<M, O>, m: M, i: nat, n: nat)
    requires Lawful(t) && !Reaches(t, m, i)
    ensures exists j | 0 <= j < i :: t.obs(Replayed(t, m, n)) == t.After(t.obs(m), j)
    ensures t.running(Replayed(t, m, n)) ==> t.running(m)
  {
    if n == 0 {
      assert t.obs(m) == t.After(t.obs(m), 0);
    } else {
      ReplayedStuck(t, m, i, n - 1);
      var before := Replayed(t, m, n - 1);
      var j :| 0 <= j < i && t.obs(before) == t.After(t.obs(m), j);
      OneStep(t, before);
      if t.running(before) && !t.asked(t.obs(before)) {
        assert j != i - 1;
        assert t.obs(Replayed(t, m, n)) == t.After(t.obs(m), j + 1);
      } else {
        assert t.obs(Replayed(t, m, n)) == t.After(t.obs(m), j);
      }
    }
  }

  /** The fast-forward to an instruction i moves away. */
  function Forwarded<M(!new), O(!new)>(t: Target<M, O>, m: M, i: nat): Stepped<M>
    requires Lawful(t)
  {
    Ran(t, m, FastForward(t.Count(t.obs(m), i)))
  }

  /** It does not go too far, and stops short unless there is nothing to skip. */
  lemma ForwardedShort<M(!new), O(!new)>(t: Target<M, O>, m: M, i: nat)
    requires Lawful(t)
    ensures var f := Forwarded(t, m, i);
            && Moved(t, m, f) && f.moves <= i
            && (f.moves < i || f == Stepped(m, 0, 0))
  {
    var f, fwdSteps := Forwarded(t, m, i), t.Count(t.obs(m), i);
    RanMoves(t, m, FastForward(fwdSteps));
    if f.moves >= i && fwdSteps > 0 {
      CountGrows(t, t.obs(m), i, f.moves);
      assert false;
    }
  }

  /** No state from one move to another is at a hooked address, whether an instruction comes next or not. */
  predicate Unhooked<M, F, O>(t: Target<M, O>, h: Hooks<F>, o: O, from: nat, to: nat) {
    forall j | from <= j < to :: t.Pc(t.After(o, j)) !in h.starts
  }

  lemma ForwardedMoves<M(!new), O(!new)>(t: Target<M, O>, m: M, i: nat)
    requires Lawful(t)
    ensures Moved(t, m, Forwarded(t, m, i)) && Forwarded(t, m, i).moves <= i
  {
    ForwardedShort(t, m, i);
  }

  /** The first of n states that is at a hooked address, or n. */
  function FirstPc<M, F, O>(t: Target<M, O>, h: Hooks<F>, o: O, n: nat): (i: nat)
    ensures i <= n && Unhooked(t, h, o, 0, i)
    ensures i < n ==> t.Pc(t.After(o, i)) in h.starts
  {
    if n == 0 then 0
    else
      var i := FirstPc(t, h, o, n - 1);
      if i == n - 1 && t.Pc(t.After(o, i)) !in h.starts then n else i
  }

  /** Where the single steps of the replay find an address that is hooked, in moves from the restored
      machine.  They look at the address alone, so this may be before instruction i. */
  function Landing<M(!new), F, O(!new)>(t: Target<M, O>, h: Hooks<F>, m: M, i: nat): (g: nat)
    requires Lawful(t) && t.Pc(t.After(t.obs(m), i)) in h.starts
    ensures Forwarded(t, m, i).moves <= g <= i && t.Pc(t.After(t.obs(m), g)) in h.starts
    ensures Unhooked(t, h, t.obs(m), Forwarded(t, m, i).moves, g)
  {
    ForwardedShort(t, m, i);
    var f := Forwarded(t, m, i).moves;
    LandingIs(t, h, t.obs(m), f, i);
    f + FirstPc(t, h, t.After(t.obs(m), f), i - f)
  }

  lemma LandingIs<M, F, O>(t: Target<M, O>, h: Hooks<F>, o: O, f: nat, i: nat)
    requires f <= i && t.Pc(t.After(o, i)) in h.starts
    ensures var g := f + FirstPc(t, h, t.After(o, f), i - f);
            t.Pc(t.After(o, g)) in h.starts && Unhooked(t, h, o, f, g)
  {
    var k := FirstPc(t, h, t.After(o, f), i - f);
    AfterAfter(t, o, f, k);
    forall j | f <= j < f + k ensures t.Pc(t.After(o, j)) !in h.starts {
      AfterAfter(t, o, f, j - f);
      assert t.Pc(t.After(t.After(o, f), j - f)) !in h.starts;
    }
  }

  /** The way from the end of the fast-forward to the landing. */
  predicate Lands<M(!new), F, O(!new)>(t: Target<M, O>, h: Hooks<F>, m: M, i: nat)
    requires Lawful(t) && t.Pc(t.After(t.obs(m), i)) in h.starts
  {
    Reaches(t, Forwarded(t, m, i).machine, Landing(t, h, m, i) - Forwarded(t, m, i).moves)
  }

  /** The machine of the landing. */
  function Landed<M(!new), F, O(!new)>(t: Target<M, O>, h: Hooks<F>, m: M, i: nat): M
    requires Lawful(t) && t.Pc(t.After(t.obs(m), i)) in h.starts
  {
    Replayed(t, Forwarded(t, m, i).machine, Landing(t, h, m, i) - Forwarded(t, m, i).moves)
  }

  lemma ReplayedFrom<M(!new), O(!new)>(t: Target<M, O>, m: M, f: Stepped<M>, g: nat)
    requires Lawful(t) && Moved(t, m, f) && f.moves <= g && Reaches(t, f.machine, g - f.moves)
    ensures t.obs(Replayed(t, f.machine, g - f.moves)) == t.After(t.obs(m), g)
    ensures t.running(Replayed(t, f.machine, g - f.moves)) == t.running(f.machine)
  {
    ReplayedFully(t, f.machine, g - f.moves);
    AfterAfter(t, t.obs(m), f.moves, g - f.moves);
  }

  lemma LandsMeans<M(!new), F, O(!new)>(t: Target<M, O>, h: Hooks<F>, m: M, i: nat, f: Stepped<M>, g: nat)
    requires Lawful(t) && t.Pc(t.After(t.obs(m), i)) in h.starts
    requires f == Forwarded(t, m, i) && g == Landing(t, h, m, i)
    ensures f.moves <= g
    ensures Lands(t, h, m, i) == Reaches(t, f.machine, g - f.moves)
    ensures Landed(t, h, m, i) == Replayed(t, f.machine, g - f.moves)
  {
  }

  lemma LandedIs<M(!new), F, O(!new)>(t: Target<M, O>, h: Hooks<F>, m: M, i: nat, g: nat, here: M)
    requires Lawful(t) && t.Pc(t.After(t.obs(m), i)) in h.starts && Lands(t, h, m, i)
    requires g == Landing(t, h, m, i) && here == Landed(t, h, m, i)
    ensures t.obs(here) == t.After(t.obs(m), g)
    ensures t.running(here) == t.running(Forwarded(t, m, i).machine)
  {
    var f := Forwarded(t, m, i);
    ForwardedMoves(t, m, i);
    LandsMeans(t, h, m, i, f, g);
    ReplayedFrom(t, m, f, g);
  }

  /** A replay that cannot get to its landing never sees a hooked address. */
  lemma ReplayedBlind<M(!new), F, O(!new)>(t: Target<M, O>, h: Hooks<F>, m: M, f: Stepped<M>, g: nat, n: nat)
    requires Lawful(t) && Moved(t, m, f) && f.moves <= g && !Reaches(t, f.machine, g - f.moves)
    requires Unhooked(t, h, t.obs(m), f.moves, g)
    ensures t.Pc(t.obs(Replayed(t, f.machine, n))) !in h.starts
  {
    ReplayedStuck(t, f.machine, g - f.moves, n);
    var j :| 0 <= j < g - f.moves && t.obs(Replayed(t, f.machine, n)) == t.After(t.obs(f.machine), j);
    AfterAfter(t, t.obs(m), f.moves, j);
    assert t.Pc(t.After(t.obs(m), f.moves + j)) !in h.starts;
  }

  lemma LandsOnHook<M(!new), F, O(!new)>(t: Target<M, O>, h: Hooks<F>, m: M, i: nat)
    requires Lawful(t) && t.Pc(t.After(t.obs(m), i)) in h.starts && Lands(t, h, m, i)
    ensures t.Pc(t.obs(Landed(t, h, m, i))) in h.starts
  {
    LandedIs(t, h, m, i, Landing(t, h, m, i), Landed(t, h, m, i));
  }

  lemma NeverLands<M(!new), F, O(!new)>(t: Target<M, O>, h: Hooks<F>, m: M, i: nat, n: nat)
    requires Lawful(t) && t.Pc(t.After(t.obs(m), i)) in h.starts && !Lands(t, h, m, i)
    ensures t.Pc(t.obs(Replayed(t, Forwarded(t, m, i).machine, n))) !in h.starts
  {
    ForwardedMoves(t, m, i);
    ReplayedBlind(t, h, m, Forwarded(t, m, i), Landing(t, h, m, i), n);
  }

  /** The replay after a restore ends if and only if the fast-forward leaves it at a hooked address, or
      leaves a target that runs and a guest that does not ask to stop on the way to the next one: then the
      landing is such an address, and otherwise no number of turns finds one. */
  lemma ReplayEndsExactlyWhen<M(!new), F, O(!new)>(t: Target<M, O>, h: Hooks<F>, m: M, i: nat)
    requires Lawful(t) && t.Pc(t.After(t.obs(m), i)) in h.starts
    ensures Lands(t, h, m, i) ==> t.Pc(t.obs(Landed(t, h, m, i))) in h.starts
    ensures !Lands(t, h, m, i) ==>
      forall n: nat :: t.Pc(t.obs(Replayed(t, Forwarded(t, m, i).machine, n))) !in h.starts
  {
    if Lands(t, h, m, i) {
      LandsOnHook(t, h, m, i);
    } else {
      forall n: nat ensures t.Pc(t.obs(Replayed(t, Forwarded(t, m, i).machine, n))) !in h.starts {
        NeverLands(t, h, m, i, n);
      }
    }
  }

  /** What is left of the way to i after some moves is as free as the whole. */
  lemma ReachesFurther<M(!new), O(!new)>(t: Target<M, O>, m: M, f: Stepped<M>, i: nat)
    requires Lawful(t) && Moved(t, m, f) && f.moves < i
    requires t.running(f.machine) ==> t.running(m)
    requires t.running(m) && !t.running(f.machine) ==> t.asked(t.After(t.obs(m), f.moves))
    ensures Reaches(t, f.machine, i - f.moves) <==> Reaches(t, m, i)
    ensures Reaches(t, m, i) ==> t.running(f.machine) == t.running(m)
  {
    AfterAfter(t, t.obs(m), f.moves, i - f.moves - 1);
    if t.asked(t.After(t.obs(m), f.moves)) {
      AskedStays(t, t.obs(m), f.moves, i - 1);
    }
  }

  lemma ForwardedRuns<M(!new), O(!new)>(t: Target<M, O>, m: M, i: nat, f: Stepped<M>)
    requires Lawful(t) && f == Forwarded(t, m, i)
    ensures Moved(t, m, f) && (f.moves < i || f == Stepped(m, 0, 0))
    ensures t.running(f.machine) ==> t.running(m)
    ensures t.running(m) && !t.running(f.machine) ==> t.asked(t.After(t.obs(m), f.moves))
  {
    ForwardedShort(t, m, i);
    RanMoves(t, m, FastForward(t.Count(t.obs(m), i)));
    RanRuns(t, m, FastForward(t.Count(t.obs(m), i)));
  }

  /** Where the landing is the instruction itself, all that counts is the restored machine. */
  lemma LandsAtHook<M(!new), F, O(!new)>(t: Target<M, O>, h: Hooks<F>, m: M, i: nat)
    requires Lawful(t) && t.Pc(t.After(t.obs(m), i)) in h.starts && Landing(t, h, m, i) == i
    ensures Lands(t, h, m, i) <==> Reaches(t, m, i)
    ensures Lands(t, h, m, i) ==> t.running(Forwarded(t, m, i).machine) == t.running(m)
  {
    var f := Forwarded(t, m, i);
    LandsMeans(t, h, m, i, f, i);
    ForwardedRuns(t, m, i, f);
    if f.moves < i {
      ReachesFurther(t, m, f, i);
    }
  }

  /** What a round of profiler_t::run comes to: a segment of n moves, or a replay without end. */
  datatype Outcome<M, E, F, O> = Done(m: M, n: nat, p: Prof<E, F, O>) | Hung(p: Prof<E, F, O>)

  /** The hook at `pc` has been called. */
  function Called<M, E, F, O>(u: Update<F, O, E>, h: Hooks<F>, o: O, pc: nat, at: nat, now: nat, p: Prof<E, F, O>,
                              m: M, n: nat): Outcome<M, E, F, O>
    requires HooksOk(h) && pc in h.starts
  {
    Done(m, n, Dispatch(u, h.funcs[pc], o, at, now, p))
  }

  /** The outcome of a replay that lands after g moves, with the machine `here`. */
  function AtLanding<M(!new), E, F, O(!new)>(t: Target<M, O>, u: Update<F, O, E>, h: Hooks<F>, o: O, here: M, g: nat,
                                             at: nat, p: Prof<E, F, O>): Outcome<M, E, F, O>
    requires HooksOk(h) && Lawful(t) && t.Pc(t.After(o, g)) in h.starts
  {
    var last := Ran(t, here, 1);
    Called(u, h, t.After(o, g), t.Pc(t.After(o, g)), at + t.Count(o, g), at, p, last.machine, g + last.moves)
  }

  /** The replay: the hook is called where the loop finds it, with the time at which the round began,
      and one more step is tried. */
  function Replay<M(!new), E, F, O(!new)>(t: Target<M, O>, u: Update<F, O, E>, h: Hooks<F>, m: M, i: nat,
                                          at: nat, p: Prof<E, F, O>): Outcome<M, E, F, O>
    requires HooksOk(h) && Lawful(t) && t.Pc(t.After(t.obs(m), i)) in h.starts
  {
    if Lands(t, h, m, i) then AtLanding(t, u, h, t.obs(m), Landed(t, h, m, i), Landing(t, h, m, i), at, p) else Hung(p)
  }

  /** The step after the hook makes a move if and only if the target runs and the guest has not asked to
      stop there. */
  lemma ReplayMoves<M(!new), F, O(!new)>(t: Target<M, O>, h: Hooks<F>, m: M, i: nat, g: nat, here: M, goesOn: bool)
    requires Lawful(t) && t.Pc(t.After(t.obs(m), i)) in h.starts && Lands(t, h, m, i)
    requires g == Landing(t, h, m, i) && here == Landed(t, h, m, i)
    requires goesOn == (t.running(Forwarded(t, m, i).machine) && !t.asked(t.After(t.obs(m), g)))
    ensures Ran(t, here, 1).moves == if goesOn then 1 else 0
    ensures t.obs(Ran(t, here, 1).machine) == t.After(t.obs(m), if goesOn then g + 1 else g)
    ensures t.running(Ran(t, here, 1).machine) == goesOn
  {
    LandedIs(t, h, m, i, g, here);
    OneStep(t, here);
    AfterAfter(t, t.obs(m), g, Ran(t, here, 1).moves);
  }

  // ----- a round

  /** The first hooked instruction of a round's run-ahead, in moves, or all its moves. */
  function Hooked<M(!new), F, O(!new)>(t: Target<M, O>, h: Hooks<F>, m: M): (i: nat)
    requires Lawful(t)
    ensures i <= Ran(t, m, INSN_PER_CKPT).moves && Quiet(t, h, t.obs(m), i)
    ensures i < Ran(t, m, INSN_PER_CKPT).moves ==> IsHooked(t, h, t.After(t.obs(m), i))
  {
    FirstHook(t, h, t.obs(m), Ran(t, m, INSN_PER_CKPT).moves)
  }

  predicate IsRewound<M(!new), F, O(!new)>(t: Target<M, O>, h: Hooks<F>, m: M)
    requires Lawful(t)
  {
    Hooked(t, h, m) < Ran(t, m, INSN_PER_CKPT).moves
  }

  /** The machine after the restore. */
  function Rewound<M(!new), O(!new)>(t: Target<M, O>, m: M): (r: M)
    requires Lawful(t)
    ensures t.obs(r) == t.obs(m) && t.running(r) == t.running(Ran(t, m, INSN_PER_CKPT).machine)
  {
    assert RestoreOk(t, m, Ran(t, m, INSN_PER_CKPT).machine);
    t.restore(m, Ran(t, m, INSN_PER_CKPT).machine)
  }

  /** One round: run ahead, scan, pop, and if something was hooked, rewind and replay. */
  function Round<M(!new), E, F, O(!new)>(t: Target<M, O>, u: Update<F, O, E>, h: Hooks<F>, m: M, at: nat,
                                         p: Prof<E, F, O>): Outcome<M, E, F, O>
    requires HooksOk(h) && Lawful(t)
  {
    var popped := PopMany(p, Exits(t, h, t.obs(m), Hooked(t, h, m)));
    if IsRewound(t, h, m) then Replay(t, u, h, Rewound(t, m), Hooked(t, h, m), at, popped)
    else Done(Ran(t, m, INSN_PER_CKPT).machine, Hooked(t, h, m), popped)
  }

  lemma RoundAfterScan<M(!new), E, F, O(!new)>(t: Target<M, O>, u: Update<F, O, E>, h: Hooks<F>, m: M, at: nat,
                                               p: Prof<E, F, O>, ran: Stepped<M>, popped: Prof<E, F, O>)
    requires HooksOk(h) && Lawful(t) && ran == Ran(t, m, INSN_PER_CKPT)
    requires popped == PopMany(p, Exits(t, h, t.obs(m), Hooked(t, h, m)))
    ensures Round(t, u, h, m, at, p)
         == if IsRewound(t, h, m) then Replay(t, u, h, Rewound(t, m), Hooked(t, h, m), at, popped)
            else Done(ran.machine, ran.moves, popped)
  {
  }

  /** Whether the replay of a round lands on the instruction that the scan has found: no move that is not
      an instruction begins at a hooked address between the end of the fast-forward and there. */
  predicate Clean<M(!new), F, O(!new)>(t: Target<M, O>, h: Hooks<F>, m: M)
    requires Lawful(t)
  {
    var i := Hooked(t, h, m);
    IsRewound(t, h, m) ==>
      forall j | Forwarded(t, Rewound(t, m), i).moves <= j < i && t.silent(t.After(t.obs(m), j)) ::
        t.Pc(t.After(t.obs(m), j)) !in h.starts
  }

  /** It does if and only if that is so; and otherwise it lands before, where no instruction comes next. */
  lemma CleanLands<M(!new), F, O(!new)>(t: Target<M, O>, h: Hooks<F>, m: M)
    requires Lawful(t) && IsRewound(t, h, m)
    ensures var i, g := Hooked(t, h, m), Landing(t, h, Rewound(t, m), Hooked(t, h, m));
            && (Clean(t, h, m) <==> g == i)
            && (Clean(t, h, m) <==> !t.silent(t.After(t.obs(m), g)))
  {
    var i := Hooked(t, h, m);
    CleanAt(t, h, t.obs(m), Forwarded(t, Rewound(t, m), i).moves, Landing(t, h, Rewound(t, m), i), i);
  }

  lemma CleanAt<M, F, O>(t: Target<M, O>, h: Hooks<F>, o: O, f: nat, g: nat, i: nat)
    requires f <= g <= i && Unhooked(t, h, o, f, g) && t.Pc(t.After(o, g)) in h.starts
    requires Quiet(t, h, o, i) && IsHooked(t, h, t.After(o, i))
    ensures (forall j | f <= j < i && t.silent(t.After(o, j)) :: t.Pc(t.After(o, j)) !in h.starts) <==> g == i
    ensures g == i <==> !t.silent(t.After(o, g))
  {
    if g < i {
      assert !IsHooked(t, h, t.After(o, g));
    } else {
      forall j | f <= j < i ensures t.Pc(t.After(o, j)) !in h.starts {
      }
    }
  }

  /** When a round ends: nothing was hooked, or the replay lands.  If it lands on the instruction found, all
      of this can be asked before the restore: the hooked instruction is the very next move, or the target
      still runs after the run-ahead and the guest had not asked to stop before the hook.  The exit code
      that the restore leaves behind is what makes the first part of the last condition necessary. */
  lemma RoundEndsExactlyWhen<M(!new), E, F, O(!new)>(t: Target<M, O>, u: Update<F, O, E>, h: Hooks<F>, m: M, at: nat,
                                                     p: Prof<E, F, O>)
    requires HooksOk(h) && Lawful(t)
    ensures Round(t, u, h, m, at, p).Done? <==>
              (IsRewound(t, h, m) ==> Lands(t, h, Rewound(t, m), Hooked(t, h, m)))
    ensures Round(t, u, h, m, at, p).Hung? ==>
              IsRewound(t, h, m) && forall n: nat :: StillSearching(t, h, m, n)
    ensures IsRewound(t, h, m) && Clean(t, h, m) ==>
              (Round(t, u, h, m, at, p).Done? <==>
                 Hooked(t, h, m) == 0 || (t.running(Ran(t, m, INSN_PER_CKPT).machine)
                                          && !t.asked(t.After(t.obs(m), Hooked(t, h, m) - 1))))
  {
    if IsRewound(t, h, m) {
      var i := Hooked(t, h, m);
      CleanLands(t, h, m);
      if Clean(t, h, m) {
        LandsAtHook(t, h, Rewound(t, m), i);
      }
      if !Lands(t, h, Rewound(t, m), i) {
        forall n: nat ensures StillSearching(t, h, m, n) {
          NeverLands(t, h, Rewound(t, m), i, n);
        }
      }
    }
  }

  /** After n turns the replay has not come to a hooked address. */
  predicate StillSearching<M(!new), F, O(!new)>(t: Target<M, O>, h: Hooks<F>, m: M, n: nat)
    requires Lawful(t)
  {
    t.Pc(t.obs(Replayed(t, Forwarded(t, Rewound(t, m), Hooked(t, h, m)).machine, n))) !in h.starts
  }

  /** How many moves a round that ends cleanly looks at: all up to the first hooked instruction, and that. */
  function Looked<M(!new), F, O(!new)>(t: Target<M, O>, h: Hooks<F>, m: M): nat
    requires Lawful(t)
  {
    if IsRewound(t, h, m) then Hooked(t, h, m) + 1 else Hooked(t, h, m)
  }

  /** Whether a round calls a hook and executes its instruction. */
  predicate ExecutesHook<M(!new), F, O(!new)>(t: Target<M, O>, h: Hooks<F>, m: M)
    requires Lawful(t)
  {
    && IsRewound(t, h, m) && Clean(t, h, m)
    && t.running(Ran(t, m, INSN_PER_CKPT).machine) && !t.asked(t.After(t.obs(m), Hooked(t, h, m)))
  }

  /** Whether a round calls a hook and does not execute its instruction. */
  predicate LeavesHook<M(!new), F, O(!new)>(t: Target<M, O>, h: Hooks<F>, m: M)
    requires Lawful(t)
  {
    IsRewound(t, h, m) && Lands(t, h, Rewound(t, m), Hooked(t, h, m)) && !ExecutesHook(t, h, m)
  }

  /** A target that runs after the run-ahead, with no request to stop before the hook, gets there. */
  lemma RunningAtHook<M(!new), F, O(!new)>(t: Target<M, O>, h: Hooks<F>, m: M)
    requires Lawful(t) && IsRewound(t, h, m)
    ensures t.running(Rewound(t, m)) && !t.asked(t.After(t.obs(m), Hooked(t, h, m))) ==>
              Reaches(t, Rewound(t, m), Hooked(t, h, m))
  {
    var i := Hooked(t, h, m);
    if i > 0 && t.asked(t.After(t.obs(m), i - 1)) {
      AskedStays(t, t.obs(m), i - 1, i);
    }
  }

  /** Whether the hook of a round that ends is executed, in terms of the landing. */
  lemma HookAtLanding<M(!new), F, O(!new)>(t: Target<M, O>, h: Hooks<F>, m: M, g: nat, goesOn: bool)
    requires Lawful(t) && IsRewound(t, h, m) && Lands(t, h, Rewound(t, m), Hooked(t, h, m))
    requires g == Landing(t, h, Rewound(t, m), Hooked(t, h, m))
    requires goesOn == (t.running(Forwarded(t, Rewound(t, m), Hooked(t, h, m)).machine)
                        && !t.asked(t.After(t.obs(m), g)))
    ensures g <= Hooked(t, h, m) && (Clean(t, h, m) <==> g == Hooked(t, h, m))
    ensures ExecutesHook(t, h, m) <==> goesOn && !t.silent(t.After(t.obs(m), g))
  {
    CleanLands(t, h, m);
    if Clean(t, h, m) {
      LandsAtHook(t, h, Rewound(t, m), Hooked(t, h, m));
    }
  }

  /** What comes of a round that is rewound and ends, with its landing at g. */
  ghost predicate Story<M(!new), E, F, O(!new)>(t: Target<M, O>, u: Update<F, O, E>, h: Hooks<F>, m: M, at: nat,
                                                p: Prof<E, F, O>, out: Outcome<M, E, F, O>, g: nat, goesOn: bool)
    requires HooksOk(h) && Lawful(t)
  {
    && g <= Hooked(t, h, m) && (Clean(t, h, m) <==> g == Hooked(t, h, m))
    && (ExecutesHook(t, h, m) <==> goesOn && !t.silent(t.After(t.obs(m), g)))
    && t.Pc(t.After(t.obs(m), g)) in h.starts
    && out.Done? && out.n == (if goesOn then g + 1 else g)
    && t.obs(out.m) == t.After(t.obs(m), out.n) && t.running(out.m) == goesOn
    && out.p == Dispatch(u, h.funcs[t.Pc(t.After(t.obs(m), g))], t.After(t.obs(m), g), at + t.Count(t.obs(m), g), at,
                         PopMany(p, Exits(t, h, t.obs(m), Hooked(t, h, m))))
  }

  lemma RoundStory<M(!new), E, F, O(!new)>(t: Target<M, O>, u: Update<F, O, E>, h: Hooks<F>, m: M, at: nat,
                                           p: Prof<E, F, O>, out: Outcome<M, E, F, O>)
    returns (g: nat, goesOn: bool)
    requires HooksOk(h) && Lawful(t) && out == Round(t, u, h, m, at, p) && out.Done? && IsRewound(t, h, m)
    ensures Story(t, u, h, m, at, p, out, g, goesOn)
  {
    var r, i := Rewound(t, m), Hooked(t, h, m);
    g := Landing(t, h, r, i);
    goesOn := t.running(Forwarded(t, r, i).machine) && !t.asked(t.After(t.obs(m), g));
    ReplayMoves(t, h, r, i, g, Landed(t, h, r, i), goesOn);
    HookAtLanding(t, h, m, g, goesOn);
    RoundIs(t, u, h, m, at, p, g, Ran(t, Landed(t, h, r, i), 1));
  }

  lemma RoundIs<M(!new), E, F, O(!new)>(t: Target<M, O>, u: Update<F, O, E>, h: Hooks<F>, m: M, at: nat,
                                        p: Prof<E, F, O>, g: nat, last: Stepped<M>)
    requires HooksOk(h) && Lawful(t)
    requires IsRewound(t, h, m) && Lands(t, h, Rewound(t, m), Hooked(t, h, m))
    requires g == Landing(t, h, Rewound(t, m), Hooked(t, h, m))
    requires last == Ran(t, Landed(t, h, Rewound(t, m), Hooked(t, h, m)), 1)
    ensures t.Pc(t.After(t.obs(m), g)) in h.starts
    ensures Round(t, u, h, m, at, p)
         == Called(u, h, t.After(t.obs(m), g), t.Pc(t.After(t.obs(m), g)), at + t.Count(t.obs(m), g), at,
                   PopMany(p, Exits(t, h, t.obs(m), Hooked(t, h, m))), last.machine, g + last.moves)
  {
  }

  /** Clean or not, the trace of a round that ends is the guest's. */
  lemma RoundMoves<M(!new), E, F, O(!new)>(t: Target<M, O>, u: Update<F, O, E>, h: Hooks<F>, m: M, at: nat,
                                           p: Prof<E, F, O>, out: Outcome<M, E, F, O>)
    requires HooksOk(h) && Lawful(t) && out == Round(t, u, h, m, at, p) && out.Done?
    ensures t.obs(out.m) == t.After(t.obs(m), out.n) && t.Count(t.obs(m), out.n) <= INSN_PER_CKPT
  {
    RanMoves(t, m, INSN_PER_CKPT);
    if IsRewound(t, h, m) {
      var g, goesOn := RoundStory(t, u, h, m, at, p, out);
      CountGrows(t, t.obs(m), out.n, Ran(t, m, INSN_PER_CKPT).moves);
    }
  }

  /** A segment of n moves, `looked` of which the per-instruction loop has looked at, with the clock stopped
      at the start of the segment. */
  ghost predicate Segment<M, E, F, O>(
    t: Target<M, O>, u: Update<F, O, E>, h: Hooks<F>, m: M, at: nat, p: Prof<E, F, O>,
    m': M, p': Prof<E, F, O>, n: nat, looked: nat)
    requires HooksOk(h)
  {
    && p' == Reference(t, u, h, StoppedAt(at), t.obs(m), at, p, looked)
    && (t.running(m') ==> looked == n)
  }

  /** A round whose replay lands on the instruction found is the per-instruction loop over its segment, and
      over one instruction more exactly if it leaves its hook. */
  ghost predicate FollowsReference<M(!new), E, F, O(!new)>(
    t: Target<M, O>, u: Update<F, O, E>, h: Hooks<F>, m: M, at: nat, p: Prof<E, F, O>, out: Outcome<M, E, F, O>)
    requires HooksOk(h) && Lawful(t)
  {
    && (out.Done? && Clean(t, h, m) ==>
          && Segment(t, u, h, m, at, p, out.m, out.p, out.n, Looked(t, h, m))
          && Looked(t, h, m) == out.n + if LeavesHook(t, h, m) then 1 else 0)
    && (out.Hung? ==>
          IsRewound(t, h, m) && out.p == Reference(t, u, h, StoppedAt(at), t.obs(m), at, p, Hooked(t, h, m)))
  }

  lemma RoundIsReference<M(!new), E, F, O(!new)>(t: Target<M, O>, u: Update<F, O, E>, h: Hooks<F>, m: M, at: nat,
                                                 p: Prof<E, F, O>, out: Outcome<M, E, F, O>)
    requires HooksOk(h) && Lawful(t) && out == Round(t, u, h, m, at, p)
    ensures FollowsReference(t, u, h, m, at, p, out)
  {
    if IsRewound(t, h, m) && Lands(t, h, Rewound(t, m), Hooked(t, h, m)) {
      if Clean(t, h, m) {
        CleanRoundIsReference(t, u, h, m, at, p, Hooked(t, h, m), out);
      }
    } else {
      QuietStretch(t, u, h, StoppedAt(at), t.obs(m), at, p, Hooked(t, h, m));
    }
  }

  lemma CleanRoundIsReference<M(!new), E, F, O(!new)>(t: Target<M, O>, u: Update<F, O, E>, h: Hooks<F>, m: M,
                                                      at: nat, p: Prof<E, F, O>, i: nat, out: Outcome<M, E, F, O>)
    requires HooksOk(h) && Lawful(t) && IsRewound(t, h, m) && Clean(t, h, m) && i == Hooked(t, h, m)
    requires Lands(t, h, Rewound(t, m), i) && out == Round(t, u, h, m, at, p)
    ensures out.Done? && Segment(t, u, h, m, at, p, out.m, out.p, out.n, i + 1)
    ensures i + 1 == out.n + if LeavesHook(t, h, m) then 1 else 0
  {
    var g, goesOn := RoundStory(t, u, h, m, at, p, out);
    ReferenceAtHook(t, u, h, t.obs(m), at, p, i);
  }

  lemma ReferenceAtHook<M, E, F, O>(t: Target<M, O>, u: Update<F, O, E>, h: Hooks<F>, o: O, at: nat,
                                    p: Prof<E, F, O>, i: nat)
    requires HooksOk(h) && Quiet(t, h, o, i) && IsHooked(t, h, t.After(o, i))
    ensures Reference(t, u, h, StoppedAt(at), o, at, p, i + 1)
         == Dispatch(u, h.funcs[t.Pc(t.After(o, i))], t.After(o, i), at + t.Count(o, i), at,
                     PopMany(p, Exits(t, h, o, i)))
  {
    QuietStretch(t, u, h, StoppedAt(at), o, at, p, i);
    ReferenceLast(t, u, h, StoppedAt(at), o, at, p, i + 1);
  }

  // ----- the hook of a round

  /** One more hook has been called, at instruction `at`. */
  predicate CallsAt<E, F, O>(before: Prof<E, F, O>, after: Prof<E, F, O>, at: int) {
    |after.calls| == |before.calls| + 1 && after.calls[|before.calls|].at == at
  }

  lemma {:induction false} PopsCallNothing<E, F, O>(p: Prof<E, F, O>, n: nat)
    ensures PopMany(p, n).calls == p.calls
  {
    if n > 0 {
      PopsCallNothing(p, n - 1);
    }
  }

  /** The hook of a round is called in the state where the replay has landed, with the time at which the
      round began: the right time if and only if no instruction lies between.  Nothing is called without
      a rewind. */
  lemma RoundTime<M(!new), E, F, O(!new)>(t: Target<M, O>, u: Update<F, O, E>, h: Hooks<F>, m: M, at: nat,
                                          p: Prof<E, F, O>)
    requires HooksOk(h) && Lawful(t) && Round(t, u, h, m, at, p).Done?
    ensures var calls := Round(t, u, h, m, at, p).p.calls;
            if !IsRewound(t, h, m) then calls == p.calls
            else var g := Landing(t, h, Rewound(t, m), Hooked(t, h, m));
                 && |calls| == |p.calls| + 1 && calls[..|p.calls|] == p.calls
                 && calls[|p.calls|].state == t.After(t.obs(m), g)
                 && calls[|p.calls|].at == at + t.Count(t.obs(m), g) && calls[|p.calls|].time == at
                 && (calls[|p.calls|].time == calls[|p.calls|].at <==> t.Count(t.obs(m), g) == 0)
  {
    PopsCallNothing(p, Exits(t, h, t.obs(m), Hooked(t, h, m)));
  }

  /** A call in a state from which an instruction comes next. */
  predicate Genuine<M, F, O>(t: Target<M, O>, calls: seq<Call<F, O>>) {
    forall k | 0 <= k < |calls| :: !t.silent(calls[k].state)
  }

  /** The hook of a round is called for an instruction if and only if the round is clean. */
  lemma GenuineExactlyWhen<M(!new), E, F, O(!new)>(t: Target<M, O>, u: Update<F, O, E>, h: Hooks<F>, m: M, at: nat,
                                                   p: Prof<E, F, O>, out: Outcome<M, E, F, O>)
    requires HooksOk(h) && Lawful(t) && out == Round(t, u, h, m, at, p) && out.Done?
    ensures Genuine(t, out.p.calls) <==> Genuine(t, p.calls) && Clean(t, h, m)
  {
    RoundTime(t, u, h, m, at, p);
    var calls := out.p.calls;
    if IsRewound(t, h, m) {
      CleanLands(t, h, m);
      GenuinePush(t, p.calls, calls);
    }
  }

  lemma GenuinePush<M, F, O>(t: Target<M, O>, calls: seq<Call<F, O>>, more: seq<Call<F, O>>)
    requires |more| == |calls| + 1 && more[..|calls|] == calls
    ensures Genuine(t, more) <==> Genuine(t, calls) && !t.silent(more[|calls|].state)
  {
    forall k | 0 <= k < |calls| ensures calls[k] == more[k] {
      assert more[..|calls|][k] == more[k];
    }
  }

  /** A round ends in one of three ways. */
  lemma RoundEndsInThreeWays<M(!new), E, F, O(!new)>(t: Target<M, O>, u: Update<F, O, E>, h: Hooks<F>, m: M,
                                                     at: nat, p: Prof<E, F, O>)
    requires HooksOk(h) && Lawful(t)
    ensures !(LeavesHook(t, h, m) && ExecutesHook(t, h, m))
    ensures Round(t, u, h, m, at, p).Done? <==> !IsRewound(t, h, m) || LeavesHook(t, h, m) || ExecutesHook(t, h, m)
  {
    if IsRewound(t, h, m) && Clean(t, h, m) {
      CleanLands(t, h, m);
      LandsAtHook(t, h, Rewound(t, m), Hooked(t, h, m));
      RunningAtHook(t, h, m);
    }
  }

  lemma CountOne<M, O>(t: Target<M, O>, o: O, g: nat, n: nat)
    requires g <= n <= g + 1
    ensures t.Count(o, n) == t.Count(o, g) + if g < n && !t.silent(t.After(o, g)) then 1 else 0
  {
  }

  /** A round that ends calls a hook at the first instruction after its segment exactly if it leaves its
      hook, and at the last instruction of its segment exactly if it executes it. */
  lemma HookIsLeftExactlyWhen<M(!new), E, F, O(!new)>(t: Target<M, O>, u: Update<F, O, E>, h: Hooks<F>, m: M, at: nat,
                                                      p: Prof<E, F, O>, out: Outcome<M, E, F, O>)
    requires HooksOk(h) && Lawful(t) && out == Round(t, u, h, m, at, p)
    ensures out.Done? && CallsAt(p, out.p, at + t.Count(t.obs(m), out.n)) <==> LeavesHook(t, h, m)
    ensures out.Done? && CallsAt(p, out.p, at + t.Count(t.obs(m), out.n) - 1) <==> ExecutesHook(t, h, m)
  {
    RoundEndsInThreeWays(t, u, h, m, at, p);
    if out.Done? {
      RoundTime(t, u, h, m, at, p);
      if IsRewound(t, h, m) {
        var g, goesOn := RoundStory(t, u, h, m, at, p, out);
        CountOne(t, t.obs(m), g, out.n);
      }
    }
  }

  /** For a clean round this is known before the restore: the round ends, and the target has stopped in the
      run-ahead or the guest asks to stop just at the hooked instruction. */
  lemma CleanRoundLeavesExactlyWhen<M(!new), F, O(!new)>(t: Target<M, O>, h: Hooks<F>, m: M)
    requires Lawful(t) && Clean(t, h, m)
    ensures var runs, i := t.running(Ran(t, m, INSN_PER_CKPT).machine), Hooked(t, h, m);
            LeavesHook(t, h, m) <==>
              && IsRewound(t, h, m)
              && (i == 0 || (runs && !t.asked(t.After(t.obs(m), i - 1))))
              && (!runs || t.asked(t.After(t.obs(m), i)))
  {
    if IsRewound(t, h, m) {
      CleanLands(t, h, m);
      LandsAtHook(t, h, Rewound(t, m), Hooked(t, h, m));
    }
  }

  /** If that happens to the very next move, the segment is empty. */
  lemma EmptySegment<M(!new), E, F, O(!new)>(t: Target<M, O>, u: Update<F, O, E>, h: Hooks<F>, m: M, at: nat,
                                             p: Prof<E, F, O>, out: Outcome<M, E, F, O>)
    requires HooksOk(h) && Lawful(t) && out == Round(t, u, h, m, at, p)
    requires Clean(t, h, m) && LeavesHook(t, h, m) && Looked(t, h, m) == 1
    ensures out.Done? && out.n == 0 && CallsAt(p, out.p, at)
  {
    HookIsLeftExactlyWhen(t, u, h, m, at, p, out);
    RoundIsReference(t, u, h, m, at, p, out);
  }

  // ----- the loops of the replay and of a round

  /** The do-while loop after `turns` turns that have found no hook, on its way to the landing `g`. */
  ghost predicate Replaying<M(!new), O(!new)>(t: Target<M, O>, o: O, f: Stepped<M>, g: nat, m: M, turns: nat)
    requires Lawful(t)
  {
    && f.moves + turns <= g
    && m == Replayed(t, f.machine, turns)
    && t.obs(m) == t.After(o, f.moves + turns)
    && Reaches(t, m, g - f.moves - turns)
  }

  lemma ReachesOneLess<M(!new), O(!new)>(t: Target<M, O>, m: M, left: nat)
    requires Lawful(t) && left > 0 && Reaches(t, m, left)
    ensures Ran(t, m, 1).moves == 1 && t.obs(Ran(t, m, 1).machine) == t.After(t.obs(m), 1)
    ensures Reaches(t, Ran(t, m, 1).machine, left - 1)
  {
    if t.asked(t.obs(m)) {
      assert t.After(t.obs(m), 0) == t.obs(m);
      AskedStays(t, t.obs(m), 0, left - 1);
      assert false;
    }
    OneStep(t, m);
    if left > 1 {
      AfterAfter(t, t.obs(m), 1, left - 2);
    }
  }

  lemma ReplayingNext<M(!new), O(!new)>(t: Target<M, O>, o: O, f: Stepped<M>, g: nat, m: M, turns: nat)
    requires Lawful(t) && Replaying(t, o, f, g, m, turns) && f.moves + turns < g
    ensures Ran(t, m, 1).moves == 1 && Replaying(t, o, f, g, Ran(t, m, 1).machine, turns + 1)
  {
    ReachesOneLess(t, m, g - f.moves - turns);
    AfterAfter(t, o, f.moves + turns, 1);
  }

  lemma ReplayingFound<M(!new), F, O(!new)>(t: Target<M, O>, h: Hooks<F>, o: O, f: Stepped<M>, g: nat, m: M,
                                            turns: nat)
    requires Lawful(t) && Replaying(t, o, f, g, m, turns) && Unhooked(t, h, o, f.moves, g)
    requires t.Pc(t.After(o, g)) in h.starts
    ensures t.Pc(t.obs(m)) in h.starts <==> f.moves + turns == g
  {
  }

  /** The do-while loop at some turn: `turns` turns behind it, and perhaps the hook found in the last. */
  ghost predicate InReplay<M(!new), E, F, O(!new)>(
    t: Target<M, O>, u: Update<F, O, E>, h: Hooks<F>, o: O, f: Stepped<M>, g: nat, at: nat, p0: Prof<E, F, O>,
    m: M, trace: seq<TraceEntry>, moves: nat, p: Prof<E, F, O>, turns: nat, found: bool)
    requires HooksOk(h) && Lawful(t) && OnTheWay(t, h, o, f, g)
  {
    && trace == t.Trace(o, moves)
    && (found ==> turns == g - f.moves + 1
                  && Done(m, moves, p)
                     == AtLanding(t, u, h, o, Replayed(t, f.machine, g - f.moves), g, at, p0))
    && (!found ==> moves == f.moves + turns && p == p0 && Replaying(t, o, f, g, m, turns))
  }

  /** The fast-forward has left it before the landing, with nothing hooked on the way. */
  ghost predicate OnTheWay<M, F, O>(t: Target<M, O>, h: Hooks<F>, o: O, f: Stepped<M>, g: nat) {
    f.moves <= g && t.Pc(t.After(o, g)) in h.starts && Unhooked(t, h, o, f.moves, g)
  }

  lemma FoundIs<M(!new), E, F, O(!new)>(
    t: Target<M, O>, u: Update<F, O, E>, h: Hooks<F>, o: O, here: M, g: nat, at: nat, p: Prof<E, F, O>,
    trace: seq<TraceEntry>, step: Stepped<M>, n: nat, p': Prof<E, F, O>)
    requires HooksOk(h) && Lawful(t) && t.obs(here) == t.After(o, g) && t.Pc(t.obs(here)) in h.starts
    requires trace == t.Trace(o, g) && step == Ran(t, here, 1) && n == g + step.moves
    requires p' == Dispatch(u, h.funcs[t.Pc(t.obs(here))], t.obs(here), at + |trace|, at, p)
    ensures AtLanding(t, u, h, o, here, g, at, p) == Done(step.machine, n, p')
  {
  }

  lemma InReplayStarts<M(!new), E, F, O(!new)>(
    t: Target<M, O>, u: Update<F, O, E>, h: Hooks<F>, m0: M, i: nat, f: Stepped<M>, g: nat, at: nat, p0: Prof<E, F, O>)
    requires HooksOk(h) && Lawful(t) && t.Pc(t.After(t.obs(m0), i)) in h.starts && Lands(t, h, m0, i)
    requires f == Forwarded(t, m0, i) && g == Landing(t, h, m0, i)
    ensures OnTheWay(t, h, t.obs(m0), f, g)
    ensures InReplay(t, u, h, t.obs(m0), f, g, at, p0, f.machine, t.Trace(t.obs(m0), f.moves), f.moves, p0, 0, false)
    ensures Replay(t, u, h, m0, i, at, p0)
         == AtLanding(t, u, h, t.obs(m0), Replayed(t, f.machine, g - f.moves), g, at, p0)
  {
    ForwardedMoves(t, m0, i);
    LandsMeans(t, h, m0, i, f, g);
  }

  /** What one step adds to the trace. */
  lemma TraceStep<M, O>(t: Target<M, O>, o: O, m: M, moves: nat, step: Stepped<M>)
    requires t.obs(m) == t.After(o, moves)
    ensures t.Trace(o, moves) + t.Trace(t.obs(m), step.moves) == t.Trace(o, moves + step.moves)
  {
    TraceTrace(t, o, moves, step.moves);
  }

  lemma InReplayFound<M(!new), E, F, O(!new)>(
    t: Target<M, O>, u: Update<F, O, E>, h: Hooks<F>, o: O, f: Stepped<M>, g: nat, at: nat, p0: Prof<E, F, O>,
    m: M, trace: seq<TraceEntry>, moves: nat, turns: nat, step: Stepped<M>, more: seq<TraceEntry>, p: Prof<E, F, O>)
    requires HooksOk(h) && Lawful(t) && OnTheWay(t, h, o, f, g)
    requires InReplay(t, u, h, o, f, g, at, p0, m, trace, moves, p0, turns, false)
    requires step == Ran(t, m, 1) && more == t.Trace(t.obs(m), step.moves) && t.Pc(t.obs(m)) in h.starts
    requires p == Dispatch(u, h.funcs[t.Pc(t.obs(m))], t.obs(m), at + |trace|, at, p0)
    ensures InReplay(t, u, h, o, f, g, at, p0, step.machine, trace + more, moves + step.moves, p, turns + 1, true)
  {
    ReplayingFound(t, h, o, f, g, m, turns);
    TraceStep(t, o, m, moves, step);
    FoundIs(t, u, h, o, m, g, at, p0, trace, step, moves + step.moves, p);
  }

  lemma InReplayMiss<M(!new), E, F, O(!new)>(
    t: Target<M, O>, u: Update<F, O, E>, h: Hooks<F>, o: O, f: Stepped<M>, g: nat, at: nat, p0: Prof<E, F, O>,
    m: M, trace: seq<TraceEntry>, moves: nat, turns: nat, step: Stepped<M>, more: seq<TraceEntry>)
    requires HooksOk(h) && Lawful(t) && OnTheWay(t, h, o, f, g)
    requires InReplay(t, u, h, o, f, g, at, p0, m, trace, moves, p0, turns, false)
    requires step == Ran(t, m, 1) && more == t.Trace(t.obs(m), step.moves) && t.Pc(t.obs(m)) !in h.starts
    ensures InReplay(t, u, h, o, f, g, at, p0, step.machine, trace + more, moves + step.moves, p0, turns + 1, false)
    ensures moves < moves + step.moves <= g
  {
    ReplayingFound(t, h, o, f, g, m, turns);
    ReplayingNext(t, o, f, g, m, turns);
    TraceStep(t, o, m, moves, step);
  }

  /** One turn of it, whether a hook is found or not. */
  lemma InReplayTurn<M(!new), E, F, O(!new)>(
    t: Target<M, O>, u: Update<F, O, E>, h: Hooks<F>, o: O, f: Stepped<M>, g: nat, at: nat, p0: Prof<E, F, O>,
    m: M, trace: seq<TraceEntry>, moves: nat, turns: nat, step: Stepped<M>, more: seq<TraceEntry>, p: Prof<E, F, O>,
    found: bool)
    requires HooksOk(h) && Lawful(t) && OnTheWay(t, h, o, f, g)
    requires InReplay(t, u, h, o, f, g, at, p0, m, trace, moves, p0, turns, false)
    requires step == Ran(t, m, 1) && more == t.Trace(t.obs(m), step.moves)
    requires found == (t.Pc(t.obs(m)) in h.starts)
    requires p == if found then Dispatch(u, h.funcs[t.Pc(t.obs(m))], t.obs(m), at + |trace|, at, p0) else p0
    ensures InReplay(t, u, h, o, f, g, at, p0, step.machine, trace + more, moves + step.moves, p, turns + 1, found)
    ensures !found ==> moves < moves + step.moves <= g
  {
    if found {
      InReplayFound(t, u, h, o, f, g, at, p0, m, trace, moves, turns, step, more, p);
    } else {
      InReplayMiss(t, u, h, o, f, g, at, p0, m, trace, moves, turns, step, more);
    }
  }

  /** The body of the do-while loop. */
  method ReplayTurn<M(!new), E, F, O(!new)>(
    t: Target<M, O>, u: Update<F, O, E>, h: Hooks<F>, ghost o: O, ghost f: Stepped<M>, ghost g: nat, at: nat,
    p0: Prof<E, F, O>, m: M, trace: seq<TraceEntry>, moves: nat, ghost turns: nat)
    returns (m': M, trace': seq<TraceEntry>, moves': nat, p: Prof<E, F, O>, found: bool)
    requires HooksOk(h) && Lawful(t) && OnTheWay(t, h, o, f, g)
    requires InReplay(t, u, h, o, f, g, at, p0, m, trace, moves, p0, turns, false)
    ensures InReplay(t, u, h, o, f, g, at, p0, m', trace', moves', p, turns + 1, found)
    ensures !found ==> moves < moves' <= g
  {
    p, found := p0, false;
    var optSa := Found(h.starts, t.Pc(t.obs(m)));
    if optSa.Some? {
      p := Dispatch(u, h.funcs[optSa.value], t.obs(m), at + |trace|, at, p);
      found := true;
    }
    var step, more := RunFor(t, m, 1);
    m', trace', moves' := step.machine, trace + more, moves + step.moves;
    InReplayTurn(t, u, h, o, f, g, at, p0, m, trace, moves, turns, step, more, p, found);
  }

  /** How many of the moves from one to another leave nothing in the trace. */
  function Silents<M, O>(t: Target<M, O>, o: O, from: nat, to: nat): nat
    requires from <= to
  {
    CountCount(t, o, from, to - from);
    (to - from) - (t.Count(o, to) - t.Count(o, from))
  }

  /** If every move before the hook is an instruction, there are at most INTERLEAVE single steps before the
      one that calls it. */
  lemma SingleStepsShort<M(!new), F, O(!new)>(t: Target<M, O>, h: Hooks<F>, m: M, i: nat)
    requires Lawful(t) && t.Pc(t.After(t.obs(m), i)) in h.starts && Lands(t, h, m, i)
    requires NoneSilent(t, t.obs(m), i)
    ensures Landing(t, h, m, i) - Forwarded(t, m, i).moves <= INTERLEAVE
    ensures Landing(t, h, m, i) - Forwarded(t, m, i).moves <= i
  {
    var f, g := Forwarded(t, m, i), Landing(t, h, m, i);
    ForwardedMoves(t, m, i);
    CountAll(t, t.obs(m), i);
    CountAll(t, t.obs(m), f.moves);
    RanShort(t, m, FastForward(i));
    LandsMeans(t, h, m, i, f, g);
  }

  /** A replay takes one single step for each instruction that the fast-forward has left, one for each
      silent move, and the one that calls the hook.  The fast-forward leaves at most INTERLEAVE instructions
      unless it ends early, in a stop or in a silent move; and if every move before the hook is an
      instruction, INTERLEAVE + 1 single steps do. */
  ghost predicate FewSteps<M(!new), F, O(!new)>(t: Target<M, O>, h: Hooks<F>, m: M, i: nat, fwdSteps: nat,
                                                singleSteps: nat)
    requires Lawful(t) && t.Pc(t.After(t.obs(m), i)) in h.starts
  {
    var f, g := Forwarded(t, m, i), Landing(t, h, m, i);
    && singleSteps == 1 + g - f.moves
    && singleSteps <= 1 + fwdSteps - f.committed + Silents(t, t.obs(m), f.moves, g)
    && EndsEarly(t, m, f, FastForward(fwdSteps)) && f.committed <= FastForward(fwdSteps)
    && (f.committed == FastForward(fwdSteps) ==>
          && singleSteps <= 1 + fwdSteps + Silents(t, t.obs(m), f.moves, g)
          && singleSteps <= 1 + INTERLEAVE + Silents(t, t.obs(m), f.moves, g))
    && (NoneSilent(t, t.obs(m), i) ==> singleSteps <= 1 + fwdSteps && singleSteps <= 1 + INTERLEAVE)
  }

  lemma StepsAreFew<M(!new), F, O(!new)>(t: Target<M, O>, h: Hooks<F>, m: M, i: nat, fwdSteps: nat, singleSteps: nat)
    requires Lawful(t) && t.Pc(t.After(t.obs(m), i)) in h.starts && Lands(t, h, m, i)
    requires fwdSteps == t.Count(t.obs(m), i)
    requires singleSteps == 1 + Landing(t, h, m, i) - Forwarded(t, m, i).moves
    ensures FewSteps(t, h, m, i, fwdSteps, singleSteps)
  {
    RanMoves(t, m, FastForward(fwdSteps));
    RanShort(t, m, FastForward(fwdSteps));
    CountGrows(t, t.obs(m), Landing(t, h, m, i), i);
    if NoneSilent(t, t.obs(m), i) {
      CountAll(t, t.obs(m), i);
      SingleStepsShort(t, h, m, i);
    }
  }

  /** The do-while loop, from a restored machine, when it ends. */
  method ReplayLoop<M(!new), E, F, O(!new)>(t: Target<M, O>, u: Update<F, O, E>, h: Hooks<F>, m0: M, ghost i: nat,
                                            fwdSteps: nat, at: nat, p0: Prof<E, F, O>)
    returns (m: M, trace: seq<TraceEntry>, moves: nat, p: Prof<E, F, O>, singleSteps: nat)
    requires HooksOk(h) && Lawful(t) && t.Pc(t.After(t.obs(m0), i)) in h.starts && Lands(t, h, m0, i)
    requires fwdSteps == t.Count(t.obs(m0), i)
    ensures Done(m, moves, p) == Replay(t, u, h, m0, i, at, p0)
    ensures trace == t.Trace(t.obs(m0), moves)
    ensures FewSteps(t, h, m0, i, fwdSteps, singleSteps)
  {
    ghost var g := Landing(t, h, m0, i);
    var f;
    f, trace := RunFor(t, m0, FastForward(fwdSteps));
    InReplayStarts(t, u, h, m0, i, f, g, at, p0);
    m, moves, p, singleSteps := f.machine, f.moves, p0, 0;
    var foundFunction := false;
    while !foundFunction
      invariant InReplay(t, u, h, t.obs(m0), f, g, at, p0, m, trace, moves, p, singleSteps, foundFunction)
      invariant foundFunction || moves <= g
      decreases !foundFunction, 1 + g - moves
    {
      m, trace, moves, p, foundFunction := ReplayTurn(t, u, h, t.obs(m0), f, g, at, p0, m, trace, moves, singleSteps);
      singleSteps := singleSteps + 1;
    }
    StepsAreFew(t, h, m0, i, fwdSteps, singleSteps);
  }

  lemma ScanFindsHook<M(!new), F, O(!new)>(t: Target<M, O>, h: Hooks<F>, m: M, rewind: bool, fwdSteps: nat)
    requires Lawful(t)
    requires FirstIn(h, t.Trace(t.obs(m), Ran(t, m, INSN_PER_CKPT).moves),
                     if rewind then fwdSteps else t.Count(t.obs(m), Ran(t, m, INSN_PER_CKPT).moves))
    requires rewind ==> fwdSteps < t.Count(t.obs(m), Ran(t, m, INSN_PER_CKPT).moves)
    ensures rewind <==> IsRewound(t, h, m)
    ensures rewind ==> fwdSteps == t.Count(t.obs(m), Hooked(t, h, m))
    ensures var n := Ran(t, m, INSN_PER_CKPT).moves;
            ExitsIn(h, t.Trace(t.obs(m), n)[..if rewind then fwdSteps else t.Count(t.obs(m), n)])
            == Exits(t, h, t.obs(m), Hooked(t, h, m))
  {
    var n := Ran(t, m, INSN_PER_CKPT).moves;
    ScanMeans(t, h, t.obs(m), n, if rewind then fwdSteps else t.Count(t.obs(m), n));
  }

  /** One trip round the loop of profiler_t::run.  Where the source never comes back from its replay the
      answer is Hung; RoundEndsExactlyWhen says when that is. */
  method RunAhead<M(!new), E, F, O(!new)>(t: Target<M, O>, u: Update<F, O, E>, h: Hooks<F>, m0: M,
                                          at: nat, p0: Prof<E, F, O>)
    returns (out: Outcome<M, E, F, O>, pctrace: seq<TraceEntry>)
    requires HooksOk(h) && Lawful(t)
    ensures out == Round(t, u, h, m0, at, p0)
    ensures out.Done? ==> pctrace == t.Trace(t.obs(m0), out.n)
  {
    var ran;
    ran, pctrace := RunFor(t, m0, INSN_PER_CKPT);
    var rewind, fwdSteps, popcnt := Scan(h, pctrace);
    ScanFindsHook(t, h, m0, rewind, fwdSteps);
    var p := PopAll(p0, popcnt);
    if !rewind {
      return Done(ran.machine, ran.moves, p), pctrace;
    }
    var m := t.restore(m0, ran.machine);
    assert m == Rewound(t, m0);
    if !Lands(t, h, m, Hooked(t, h, m0)) {
      return Hung(p), [];
    }
    var moves, singleSteps;
    m, pctrace, moves, p, singleSteps := ReplayLoop(t, u, h, m, Hooked(t, h, m0), fwdSteps, at, p);
    out := Done(m, moves, p);
  }

  // ----- the segments and their times

  /** The total length of the segments before the one that instruction i belongs to. */
  function SegmentStart<T>(segments: seq<seq<T>>, i: nat): (start: nat)
    ensures start <= i
  {
    if segments == [] then 0
    else
      var front := segments[..|segments| - 1];
      if |Flat(front)| <= i then |Flat(front)| else SegmentStart(front, i)
  }

  /** The clock of profiler_t::run, which moves only between segments. */
  function SegmentClock<T>(segments: seq<seq<T>>): Clock {
    (i: nat) => SegmentStart(segments, i)
  }

  lemma StartAfterPush<T>(segments: seq<seq<T>>, last: seq<T>, i: nat)
    ensures SegmentStart(segments + [last], i)
         == if |Flat(segments)| <= i then |Flat(segments)| else SegmentStart(segments, i)
  {
    assert (segments + [last])[..|segments|] == segments;
  }

  /** A hook reads the right time if and only if a segment starts with its instruction. */
  lemma {:induction false} TimeIsRightExactlyWhen<T>(segments: seq<seq<T>>, i: nat)
    requires segments != []
    ensures SegmentStart(segments, i) == i <==> exists k | 0 <= k < |segments| :: |Flat(segments[..k])| == i
  {
    var front := segments[..|segments| - 1];
    if front == [] {
      assert Flat(front) == [];
      assert segments[..0] == [];
    } else {
      TimeIsRightExactlyWhen(front, i);
      forall k | 0 <= k < |front| ensures front[..k] == segments[..k] {
      }
      FlatGrows(segments);
    }
  }

  /** Segments start one after the other. */
  lemma {:induction false} FlatGrows<T>(segments: seq<seq<T>>)
    ensures forall k | 0 <= k < |segments| :: |Flat(segments[..k])| <= |Flat(segments)|
  {
    if segments != [] {
      var front := segments[..|segments| - 1];
      FlatGrows(front);
      forall k | 0 <= k < |segments| ensures |Flat(segments[..k])| <= |Flat(segments)| {
        assert segments[..k] == front[..k];
        assert front[..|front|] == front;
      }
    }
  }

  // ----- the loop

  /** What is always right when `submitted` holds n moves of the guest. */
  ghost predicate Traced<M, O>(t: Target<M, O>, o: O, n: nat, m: M, submitted: seq<seq<TraceEntry>>) {
    Flat(submitted) == t.Trace(o, n) && t.obs(m) == t.After(o, n) && Sized(submitted)
  }

  /** No segment is longer than a run-ahead. */
  ghost predicate Sized(submitted: seq<seq<TraceEntry>>) {
    forall k | 0 <= k < |submitted| :: |submitted[k]| <= INSN_PER_CKPT
  }

  lemma SizedPush(submitted: seq<seq<TraceEntry>>, segment: seq<TraceEntry>)
    requires Sized(submitted) && |segment| <= INSN_PER_CKPT
    ensures Sized(submitted + [segment])
  {
  }

  /** What is right as long as every hook was called for an instruction: `upTo` moves have been looked at. */
  ghost predicate Caught<M, E, F, O>(
    t: Target<M, O>, u: Update<F, O, E>, h: Hooks<F>, o: O, p0: Prof<E, F, O>,
    n: nat, m: M, p: Prof<E, F, O>, submitted: seq<seq<TraceEntry>>, hung: bool, upTo: nat)
    requires HooksOk(h)
  {
    && p == Reference(t, u, h, SegmentClock(submitted), o, 0, p0, upTo)
    && (!hung && t.running(m) ==> upTo == n)
  }

  /** And how the last round came out then, which began after `at` moves with the machine `last`.  Only in
      this round is more looked at than is executed, and only if the round leaves its hook. */
  ghost predicate LastRound<M(!new), E, F, O(!new)>(
    t: Target<M, O>, u: Update<F, O, E>, h: Hooks<F>, o: O, p0: Prof<E, F, O>,
    n: nat, m: M, p: Prof<E, F, O>, submitted: seq<seq<TraceEntry>>, hung: bool, upTo: nat, at: nat, last: M)
    requires HooksOk(h) && Lawful(t)
  {
    && at <= n <= upTo && t.obs(last) == t.After(o, at) && t.running(last)
    && Round(t, u, h, last, t.Count(o, at), Reference(t, u, h, SegmentClock(submitted), o, 0, p0, at))
       == (if hung then Hung(p) else Done(m, n - at, p))
    && (if hung then at == n && IsRewound(t, h, last) && upTo == n + Hooked(t, h, last)
        else upTo == n + if LeavesHook(t, h, last) then 1 else 0)
  }

  /** All of it; before the first round nothing has been looked at. */
  ghost predicate Rounded<M(!new), E, F, O(!new)>(
    t: Target<M, O>, u: Update<F, O, E>, h: Hooks<F>, o: O, p0: Prof<E, F, O>,
    n: nat, m: M, p: Prof<E, F, O>, submitted: seq<seq<TraceEntry>>, hung: bool, upTo: nat, at: nat, last: M)
    requires HooksOk(h) && Lawful(t)
  {
    && Traced(t, o, n, m, submitted)
    && (submitted == [] && !hung ==> upTo == n)
    && (Genuine(t, p.calls) ==>
          && Caught(t, u, h, o, p0, n, m, p, submitted, hung, upTo)
          && (submitted != [] || hung ==> LastRound(t, u, h, o, p0, n, m, p, submitted, hung, upTo, at, last)))
  }

  /** Two clocks that agree at move k, if it is a hooked instruction. */
  ghost predicate SameAt<M, F, O>(t: Target<M, O>, h: Hooks<F>, c: Clock, d: Clock, o: O, at: nat, k: nat) {
    IsHooked(t, h, t.After(o, k)) ==> c(at + t.Count(o, k)) == d(at + t.Count(o, k))
  }

  ghost predicate SameAtHooks<M, F, O>(t: Target<M, O>, h: Hooks<F>, c: Clock, d: Clock, o: O, at: nat, n: nat) {
    forall k: nat | k < n :: SameAt(t, h, c, d, o, at, k)
  }

  /** Only the clock at the hooked instructions matters. */
  lemma {:induction false} SameClockAtHooks<M, E, F, O>(
    t: Target<M, O>, u: Update<F, O, E>, h: Hooks<F>, c: Clock, d: Clock, o: O, at: nat, p: Prof<E, F, O>, n: nat)
    requires HooksOk(h) && SameAtHooks(t, h, c, d, o, at, n)
    ensures Reference(t, u, h, c, o, at, p, n) == Reference(t, u, h, d, o, at, p, n)
  {
    if n > 0 {
      SameClockAtHooks(t, u, h, c, d, o, at, p, n - 1);
      assert SameAt(t, h, c, d, o, at, n - 1);
      SameClockStep(t, u, h, c, d, o, at, p, n, t.After(o, n - 1), at + t.Count(o, n - 1));
    }
  }

  lemma SameClockStep<M, E, F, O>(
    t: Target<M, O>, u: Update<F, O, E>, h: Hooks<F>, c: Clock, d: Clock, o: O, at: nat, p: Prof<E, F, O>, n: nat,
    last: O, i: nat)
    requires HooksOk(h) && n > 0 && last == t.After(o, n - 1) && i == at + t.Count(o, n - 1)
    requires IsHooked(t, h, last) ==> c(i) == d(i)
    requires Reference(t, u, h, c, o, at, p, n - 1) == Reference(t, u, h, d, o, at, p, n - 1)
    ensures Reference(t, u, h, c, o, at, p, n) == Reference(t, u, h, d, o, at, p, n)
  {
    ReferenceLast(t, u, h, c, o, at, p, n);
    ReferenceLast(t, u, h, d, o, at, p, n);
    SameLook(t, u, h, last, i, c(i), d(i), Reference(t, u, h, c, o, at, p, n - 1));
  }

  lemma SameLook<M, E, F, O>(t: Target<M, O>, u: Update<F, O, E>, h: Hooks<F>, o: O, at: nat, now: nat, later: nat,
                             p: Prof<E, F, O>)
    requires HooksOk(h) && (IsHooked(t, h, o) ==> now == later)
    ensures t.silent(o) || Look(t, u, h, o, at, now, p) == Look(t, u, h, o, at, later, p)
  {
  }

  /** The clock of one more segment. */
  lemma ClockAfterPush<T>(submitted: seq<seq<T>>, segment: seq<T>, at: nat, i: nat)
    requires |Flat(submitted)| == at
    ensures SegmentClock(submitted + [segment])(i) == if at <= i then at else SegmentClock(submitted)(i)
  {
    StartAfterPush(submitted, segment, i);
  }

  lemma HooksBefore<M, F, O>(t: Target<M, O>, h: Hooks<F>, o: O, k: nat, n: nat)
    requires k < n && IsHooked(t, h, t.After(o, k))
    ensures t.Count(o, k) < t.Count(o, n)
  {
    CountGrows(t, o, k + 1, n);
  }

  /** What was looked at before the segment looks the same with its clock. */
  lemma ReferenceBefore<M, E, F, O>(
    t: Target<M, O>, u: Update<F, O, E>, h: Hooks<F>, o: O, p0: Prof<E, F, O>, a: nat,
    submitted: seq<seq<TraceEntry>>, segment: seq<TraceEntry>)
    requires HooksOk(h) && |Flat(submitted)| == t.Count(o, a)
    ensures Reference(t, u, h, SegmentClock(submitted + [segment]), o, 0, p0, a)
         == Reference(t, u, h, SegmentClock(submitted), o, 0, p0, a)
  {
    var c, d := SegmentClock(submitted + [segment]), SegmentClock(submitted);
    forall k: nat | k < a ensures SameAt(t, h, c, d, o, 0, k) {
      if IsHooked(t, h, t.After(o, k)) {
        HooksBefore(t, h, o, k, a);
        ClockAfterPush(submitted, segment, t.Count(o, a), t.Count(o, k));
      }
    }
    SameClockAtHooks(t, u, h, c, d, o, 0, p0, a);
  }

  /** One round's reference, with its own clock, is the next stretch of the whole run's. */
  lemma ReferenceGoesOn<M, E, F, O>(
    t: Target<M, O>, u: Update<F, O, E>, h: Hooks<F>, o: O, p0: Prof<E, F, O>, a: nat, o': O, at: nat,
    p: Prof<E, F, O>, n: nat, submitted: seq<seq<TraceEntry>>, segment: seq<TraceEntry>)
    requires HooksOk(h) && o' == t.After(o, a) && at == t.Count(o, a) && |Flat(submitted)| == at
    requires p == Reference(t, u, h, SegmentClock(submitted), o, 0, p0, a)
    ensures Reference(t, u, h, StoppedAt(at), o', at, p, n)
         == Reference(t, u, h, SegmentClock(submitted + [segment]), o, 0, p0, a + n)
  {
    var clock := SegmentClock(submitted + [segment]);
    ReferenceBefore(t, u, h, o, p0, a, submitted, segment);
    forall k: nat | k < n ensures SameAt(t, h, StoppedAt(at), clock, o', at, k) {
      ClockAfterPush(submitted, segment, at, at + t.Count(o', k));
    }
    SameClockAtHooks(t, u, h, StoppedAt(at), clock, o', at, p, n);
    ReferenceReference(t, u, h, clock, o, 0, p0, a, n);
  }

  lemma SegmentJoins<M, O>(t: Target<M, O>, o: O, a: nat, m: M, submitted: seq<seq<TraceEntry>>,
                           m': M, n: nat, a': nat, segment: seq<TraceEntry>)
    requires Traced(t, o, a, m, submitted) && a' == a + n
    requires t.obs(m') == t.After(t.obs(m), n) && segment == t.Trace(t.obs(m), n) && |segment| <= INSN_PER_CKPT
    ensures Traced(t, o, a', m', submitted + [segment])
  {
    TraceJoins(t, o, a, t.obs(m), n, a', segment);
    SizedPush(submitted, segment);
    FlatPush(submitted, segment);
  }

  lemma TraceJoins<M, O>(t: Target<M, O>, o: O, a: nat, o': O, n: nat, a': nat, segment: seq<TraceEntry>)
    requires o' == t.After(o, a) && a' == a + n && segment == t.Trace(o', n)
    ensures t.Trace(o, a) + segment == t.Trace(o, a') && t.After(o', n) == t.After(o, a')
  {
    TraceTrace(t, o, a, n);
    AfterAfter(t, o, a, n);
  }

  lemma CaughtUpDone<M, E, F, O>(
    t: Target<M, O>, u: Update<F, O, E>, h: Hooks<F>, o: O, p0: Prof<E, F, O>,
    a: nat, m: M, p: Prof<E, F, O>, submitted: seq<seq<TraceEntry>>, segment: seq<TraceEntry>,
    m': M, p': Prof<E, F, O>, n: nat, looked: nat, a': nat, upTo: nat)
    requires HooksOk(h) && Traced(t, o, a, m, submitted) && a' == a + n && upTo == a + looked
    requires p == Reference(t, u, h, SegmentClock(submitted), o, 0, p0, a)
    requires Segment(t, u, h, m, t.Count(o, a), p, m', p', n, looked)
    ensures Caught(t, u, h, o, p0, a', m', p', submitted + [segment], false, upTo)
  {
    ReferenceGoesOn(t, u, h, o, p0, a, t.obs(m), t.Count(o, a), p, looked, submitted, segment);
  }

  lemma LastRoundDone<M(!new), E, F, O(!new)>(
    t: Target<M, O>, u: Update<F, O, E>, h: Hooks<F>, o: O, p0: Prof<E, F, O>,
    a: nat, m: M, p: Prof<E, F, O>, submitted: seq<seq<TraceEntry>>, segment: seq<TraceEntry>,
    out: Outcome<M, E, F, O>, a': nat, upTo: nat)
    requires HooksOk(h) && Lawful(t) && t.running(m) && Traced(t, o, a, m, submitted)
    requires p == Reference(t, u, h, SegmentClock(submitted), o, 0, p0, a)
    requires out == Round(t, u, h, m, t.Count(o, a), p) && out.Done? && a' == a + out.n
    requires upTo == a' + if LeavesHook(t, h, m) then 1 else 0
    ensures LastRound(t, u, h, o, p0, a', out.m, out.p, submitted + [segment], false, upTo, a, m)
  {
    ReferenceBefore(t, u, h, o, p0, a, submitted, segment);
  }

  lemma CleanRoundDone<M(!new), E, F, O(!new)>(
    t: Target<M, O>, u: Update<F, O, E>, h: Hooks<F>, o: O, p0: Prof<E, F, O>,
    a: nat, m: M, p: Prof<E, F, O>, submitted: seq<seq<TraceEntry>>, segment: seq<TraceEntry>,
    out: Outcome<M, E, F, O>, a': nat, upTo: nat)
    requires HooksOk(h) && Lawful(t) && t.running(m) && Traced(t, o, a, m, submitted) && Clean(t, h, m)
    requires p == Reference(t, u, h, SegmentClock(submitted), o, 0, p0, a)
    requires out == Round(t, u, h, m, t.Count(o, a), p) && out.Done?
    requires a' == a + out.n && upTo == a + Looked(t, h, m)
    ensures Caught(t, u, h, o, p0, a', out.m, out.p, submitted + [segment], false, upTo)
    ensures LastRound(t, u, h, o, p0, a', out.m, out.p, submitted + [segment], false, upTo, a, m)
  {
    RoundIsReference(t, u, h, m, t.Count(o, a), p, out);
    CaughtUpDone(t, u, h, o, p0, a, m, p, submitted, segment, out.m, out.p, out.n, Looked(t, h, m), a', upTo);
    LastRoundDone(t, u, h, o, p0, a, m, p, submitted, segment, out, a', upTo);
  }

  lemma RoundTraced<M(!new), E, F, O(!new)>(
    t: Target<M, O>, u: Update<F, O, E>, h: Hooks<F>, o: O, a: nat, m: M, at: nat, p: Prof<E, F, O>,
    submitted: seq<seq<TraceEntry>>, segment: seq<TraceEntry>, out: Outcome<M, E, F, O>, a': nat)
    requires HooksOk(h) && Lawful(t) && Traced(t, o, a, m, submitted)
    requires out == Round(t, u, h, m, at, p) && out.Done? && a' == a + out.n && segment == t.Trace(t.obs(m), out.n)
    ensures Traced(t, o, a', out.m, submitted + [segment])
  {
    RoundMoves(t, u, h, m, at, p, out);
    SegmentJoins(t, o, a, m, submitted, out.m, out.n, a', segment);
  }

  /** A round that ends carries everything over to the next segment. */
  lemma RoundDone<M(!new), E, F, O(!new)>(
    t: Target<M, O>, u: Update<F, O, E>, h: Hooks<F>, o: O, p0: Prof<E, F, O>,
    a: nat, m: M, p: Prof<E, F, O>, submitted: seq<seq<TraceEntry>>, segment: seq<TraceEntry>,
    out: Outcome<M, E, F, O>, a': nat, upTo: nat)
    requires HooksOk(h) && Lawful(t) && t.running(m) && Traced(t, o, a, m, submitted)
    requires Genuine(t, p.calls) ==> p == Reference(t, u, h, SegmentClock(submitted), o, 0, p0, a)
    requires out == Round(t, u, h, m, t.Count(o, a), p) && out.Done? && segment == t.Trace(t.obs(m), out.n)
    requires a' == a + out.n && upTo == a + Looked(t, h, m)
    ensures Rounded(t, u, h, o, p0, a', out.m, out.p, submitted + [segment], false, upTo, a, m)
  {
    RoundTraced(t, u, h, o, a, m, t.Count(o, a), p, submitted, segment, out, a');
    GenuineExactlyWhen(t, u, h, m, t.Count(o, a), p, out);
    if Genuine(t, out.p.calls) {
      CleanRoundDone(t, u, h, o, p0, a, m, p, submitted, segment, out, a', upTo);
    }
  }

  /** One that does not leaves them where they are, with the hooked instruction still to come. */
  lemma RoundHung<M(!new), E, F, O(!new)>(
    t: Target<M, O>, u: Update<F, O, E>, h: Hooks<F>, o: O, p0: Prof<E, F, O>,
    a: nat, m: M, p: Prof<E, F, O>, submitted: seq<seq<TraceEntry>>, p': Prof<E, F, O>, upTo: nat)
    requires HooksOk(h) && Lawful(t) && t.running(m) && Traced(t, o, a, m, submitted)
    requires Genuine(t, p.calls) ==> p == Reference(t, u, h, SegmentClock(submitted), o, 0, p0, a)
    requires Round(t, u, h, m, t.Count(o, a), p) == Hung(p') && upTo == a + Hooked(t, h, m)
    ensures Rounded(t, u, h, o, p0, a, m, p', submitted, true, upTo, a, m)
  {
    RoundIsReference(t, u, h, m, t.Count(o, a), p, Hung(p'));
    HungCallsNothing(t, u, h, m, t.Count(o, a), p);
    if Genuine(t, p'.calls) {
      ReferenceStands(t, u, h, o, p0, a, t.obs(m), t.Count(o, a), p, Hooked(t, h, m), submitted);
    }
  }

  lemma HungCallsNothing<M(!new), E, F, O(!new)>(t: Target<M, O>, u: Update<F, O, E>, h: Hooks<F>, m: M, at: nat,
                                                 p: Prof<E, F, O>)
    requires HooksOk(h) && Lawful(t) && Round(t, u, h, m, at, p).Hung?
    ensures Round(t, u, h, m, at, p).p.calls == p.calls
  {
    PopsCallNothing(p, Exits(t, h, t.obs(m), Hooked(t, h, m)));
  }

  /** Where nothing is hooked, the clock does not matter. */
  lemma ReferenceStands<M, E, F, O>(
    t: Target<M, O>, u: Update<F, O, E>, h: Hooks<F>, o: O, p0: Prof<E, F, O>, a: nat, o': O, at: nat,
    p: Prof<E, F, O>, n: nat, submitted: seq<seq<TraceEntry>>)
    requires HooksOk(h) && o' == t.After(o, a) && at == t.Count(o, a) && Quiet(t, h, o', n)
    requires p == Reference(t, u, h, SegmentClock(submitted), o, 0, p0, a)
    ensures Reference(t, u, h, StoppedAt(at), o', at, p, n)
         == Reference(t, u, h, SegmentClock(submitted), o, 0, p0, a + n)
  {
    QuietStretch(t, u, h, StoppedAt(at), o', at, p, n);
    QuietStretch(t, u, h, SegmentClock(submitted), o', at, p, n);
    ReferenceReference(t, u, h, SegmentClock(submitted), o, 0, p0, a, n);
  }

  // ----- which runs are clean

  /** Whether a round ends. */
  predicate Ends<M(!new), F, O(!new)>(t: Target<M, O>, h: Hooks<F>, m: M)
    requires Lawful(t)
  {
    IsRewound(t, h, m) ==> Lands(t, h, Rewound(t, m), Hooked(t, h, m))
  }

  /** The machine that it leaves then, whatever the hooks do. */
  function NextMachine<M(!new), F, O(!new)>(t: Target<M, O>, h: Hooks<F>, m: M): M
    requires Lawful(t)
  {
    if IsRewound(t, h, m) then Ran(t, Landed(t, h, Rewound(t, m), Hooked(t, h, m)), 1).machine
    else Ran(t, m, INSN_PER_CKPT).machine
  }

  /** Whether all the rounds from m on are clean, up to the last of `rounds`, or the one after which the
      target has stopped, or the one that never ends. */
  predicate CleanRun<M(!new), F, O(!new)>(t: Target<M, O>, h: Hooks<F>, m: M, rounds: nat)
    requires Lawful(t)
  {
    rounds > 0 && t.running(m) && Ends(t, h, m) ==>
      Clean(t, h, m) && CleanRun(t, h, NextMachine(t, h, m), rounds - 1)
  }

  lemma RoundEnds<M(!new), E, F, O(!new)>(t: Target<M, O>, u: Update<F, O, E>, h: Hooks<F>, m: M, at: nat,
                                          p: Prof<E, F, O>, out: Outcome<M, E, F, O>)
    requires HooksOk(h) && Lawful(t) && out == Round(t, u, h, m, at, p)
    ensures out.Done? <==> Ends(t, h, m)
    ensures out.Done? ==> out.m == NextMachine(t, h, m)
  {
  }

  /** One round more: its dispatch is made for an instruction exactly if it is clean. */
  lemma RoundKeepsGenuine<M(!new), E, F, O(!new)>(t: Target<M, O>, u: Update<F, O, E>, h: Hooks<F>, m: M, at: nat,
                                                  p: Prof<E, F, O>, out: Outcome<M, E, F, O>, m': M, left: nat)
    requires HooksOk(h) && Lawful(t) && out == Round(t, u, h, m, at, p) && t.running(m) && left > 0
    requires m' == if out.Done? then out.m else m
    ensures Genuine(t, p.calls) && CleanRun(t, h, m, left)
       <==> Genuine(t, out.p.calls) && (out.Hung? || CleanRun(t, h, m', left - 1))
  {
    RoundEnds(t, u, h, m, at, p, out);
    if out.Done? {
      GenuineExactlyWhen(t, u, h, m, at, p, out);
    } else {
      HungCallsNothing(t, u, h, m, at, p);
    }
  }

  /** No move of the guest that leaves nothing in the trace begins at a hooked address. */
  ghost predicate NoSilentHook<M, F, O>(t: Target<M, O>, h: Hooks<F>, o: O) {
    forall j: nat :: SilentUnhooked(t, h, t.After(o, j))
  }

  predicate SilentUnhooked<M, F, O>(t: Target<M, O>, h: Hooks<F>, o: O) {
    t.silent(o) ==> t.Pc(o) !in h.starts
  }

  lemma NextMachineMoves<M(!new), F, O(!new)>(t: Target<M, O>, h: Hooks<F>, m: M) returns (n: nat)
    requires Lawful(t) && Ends(t, h, m)
    ensures t.obs(NextMachine(t, h, m)) == t.After(t.obs(m), n)
  {
    if IsRewound(t, h, m) {
      var r, i := Rewound(t, m), Hooked(t, h, m);
      var g := Landing(t, h, r, i);
      var goesOn := t.running(Forwarded(t, r, i).machine) && !t.asked(t.After(t.obs(m), g));
      ReplayMoves(t, h, r, i, g, Landed(t, h, r, i), goesOn);
      n := if goesOn then g + 1 else g;
    } else {
      RanMoves(t, m, INSN_PER_CKPT);
      n := Ran(t, m, INSN_PER_CKPT).moves;
    }
  }

  lemma NoSilentHookLater<M, F, O>(t: Target<M, O>, h: Hooks<F>, o: O, n: nat)
    requires NoSilentHook(t, h, o)
    ensures NoSilentHook(t, h, t.After(o, n))
  {
    forall j: nat ensures SilentUnhooked(t, h, t.After(t.After(o, n), j)) {
      AfterAfter(t, o, n, j);
      assert SilentUnhooked(t, h, t.After(o, n + j));
    }
  }

  /** Of such a guest every run is clean, however often it is interrupted elsewhere. */
  lemma {:induction false} NoSilentHookIsClean<M(!new), F, O(!new)>(t: Target<M, O>, h: Hooks<F>, m: M, rounds: nat)
    requires Lawful(t) && NoSilentHook(t, h, t.obs(m))
    ensures CleanRun(t, h, m, rounds)
    decreases rounds
  {
    if rounds > 0 && t.running(m) && Ends(t, h, m) {
      NoSilentHookCleans(t, h, m);
      var n := NextMachineMoves(t, h, m);
      NoSilentHookLater(t, h, t.obs(m), n);
      NoSilentHookIsClean(t, h, NextMachine(t, h, m), rounds - 1);
    }
  }

  lemma NoSilentHookCleans<M(!new), F, O(!new)>(t: Target<M, O>, h: Hooks<F>, m: M)
    requires Lawful(t) && NoSilentHook(t, h, t.obs(m))
    ensures Clean(t, h, m)
  {
    forall j: nat | t.silent(t.After(t.obs(m), j)) ensures t.Pc(t.After(t.obs(m), j)) !in h.starts {
      assert SilentUnhooked(t, h, t.After(t.obs(m), j));
    }
  }

  // ----- any number of rounds

  lemma RoundNext<M(!new), E, F, O(!new)>(
    t: Target<M, O>, u: Update<F, O, E>, h: Hooks<F>, o: O, p0: Prof<E, F, O>,
    a: nat, m: M, p: Prof<E, F, O>, submitted: seq<seq<TraceEntry>>, out: Outcome<M, E, F, O>, segment: seq<TraceEntry>,
    m': M, submitted': seq<seq<TraceEntry>>)
    returns (a': nat, upTo: nat)
    requires HooksOk(h) && Lawful(t) && t.running(m) && Traced(t, o, a, m, submitted)
    requires Genuine(t, p.calls) ==> p == Reference(t, u, h, SegmentClock(submitted), o, 0, p0, a)
    requires out == Round(t, u, h, m, t.Count(o, a), p) && (out.Done? ==> segment == t.Trace(t.obs(m), out.n))
    requires m' == if out.Done? then out.m else m
    requires submitted' == if out.Done? then submitted + [segment] else submitted
    ensures Rounded(t, u, h, o, p0, a', m', out.p, submitted', out.Hung?, upTo, a, m)
    ensures t.Count(o, a') == t.Count(o, a) + if out.Done? then |segment| else 0
  {
    if out.Done? {
      a', upTo := a + out.n, a + Looked(t, h, m);
      CountCount(t, o, a, out.n);
      RoundDone(t, u, h, o, p0, a, m, p, submitted, segment, out, a', upTo);
    } else {
      a', upTo := a, a + Hooked(t, h, m);
      RoundHung(t, u, h, o, p0, a, m, p, submitted, out.p, upTo);
    }
  }

  /** The body of the loop of profiler_t::run. */
  method NextRound<M(!new), E, F, O(!new)>(
    t: Target<M, O>, u: Update<F, O, E>, h: Hooks<F>, ghost o: O, ghost p0: Prof<E, F, O>, ghost a: nat,
    at: nat, m: M, p: Prof<E, F, O>, submitted: seq<seq<TraceEntry>>, ghost left: nat)
    returns (m': M, p': Prof<E, F, O>, at': nat, submitted': seq<seq<TraceEntry>>, hung: bool,
             ghost a': nat, ghost upTo: nat)
    requires HooksOk(h) && Lawful(t) && t.running(m) && Traced(t, o, a, m, submitted) && at == t.Count(o, a)
    requires left > 0
    requires Genuine(t, p.calls) ==> p == Reference(t, u, h, SegmentClock(submitted), o, 0, p0, a)
    ensures Rounded(t, u, h, o, p0, a', m', p', submitted', hung, upTo, a, m)
    ensures at' == t.Count(o, a')
    ensures Genuine(t, p.calls) && CleanRun(t, h, m, left)
       <==> Genuine(t, p'.calls) && (hung || CleanRun(t, h, m', left - 1))
  {
    var out, pctrace := RunAhead(t, u, h, m, at, p);
    p', hung := out.p, out.Hung?;
    m', at', submitted' := m, at, submitted;
    if !hung {
      m', at', submitted' := out.m, at + |pctrace|, submitted + [pctrace];
    }
    a', upTo := RoundNext(t, u, h, o, p0, a, m, p, submitted, out, pctrace, m', submitted');
    RoundKeepsGenuine(t, u, h, m, at, p, out, m', left);
  }

  lemma RoundedGoesOn<M(!new), E, F, O(!new)>(
    t: Target<M, O>, u: Update<F, O, E>, h: Hooks<F>, o: O, p0: Prof<E, F, O>,
    n: nat, m: M, p: Prof<E, F, O>, submitted: seq<seq<TraceEntry>>, upTo: nat, at: nat, last: M)
    requires HooksOk(h) && Lawful(t) && t.running(m)
    requires Rounded(t, u, h, o, p0, n, m, p, submitted, false, upTo, at, last)
    ensures Traced(t, o, n, m, submitted)
    ensures Genuine(t, p.calls) ==> p == Reference(t, u, h, SegmentClock(submitted), o, 0, p0, n)
  {
  }

  lemma RoundedAtStart<M(!new), E, F, O(!new)>(t: Target<M, O>, u: Update<F, O, E>, h: Hooks<F>, m: M, p: Prof<E, F, O>)
    requires HooksOk(h) && Lawful(t)
    ensures Rounded(t, u, h, t.obs(m), p, 0, m, p, [], false, 0, 0, m)
  {
  }

  /** The loop of profiler_t::run. */
  method Rounds<M(!new), E, F, O(!new)>(t: Target<M, O>, u: Update<F, O, E>, h: Hooks<F>, m0: M,
                                        p0: Prof<E, F, O>, rounds: nat)
    returns (m: M, p: Prof<E, F, O>, timestamp: nat, submitted: seq<seq<TraceEntry>>, hung: bool,
             ghost moves: nat, ghost upTo: nat, ghost at: nat, ghost last: M)
    requires HooksOk(h) && Lawful(t)
    ensures Rounded(t, u, h, t.obs(m0), p0, moves, m, p, submitted, hung, upTo, at, last)
    ensures timestamp == t.Count(t.obs(m0), moves)
    ensures Genuine(t, p.calls) <==> Genuine(t, p0.calls) && CleanRun(t, h, m0, rounds)
  {
    m, p, timestamp, submitted, hung := m0, p0, 0, [], false;
    moves, upTo, at, last := 0, 0, 0, m0;
    RoundedAtStart(t, u, h, m0, p0);
    for r := 0 to rounds
      invariant Rounded(t, u, h, t.obs(m0), p0, moves, m, p, submitted, hung, upTo, at, last)
      invariant timestamp == t.Count(t.obs(m0), moves)
      invariant Genuine(t, p0.calls) && CleanRun(t, h, m0, rounds)
           <==> Genuine(t, p.calls) && (hung || CleanRun(t, h, m, rounds - r))
    {
      if hung || !t.running(m) {
        break;
      }
      RoundedGoesOn(t, u, h, t.obs(m0), p0, moves, m, p, submitted, upTo, at, last);
      at, last := moves, m;
      m, p, timestamp, submitted, hung, moves, upTo :=
        NextRound(t, u, h, t.obs(m0), p0, moves, timestamp, m, p, submitted, rounds - r);
    }
  }

  /** A replay hangs looking for a hooked instruction of the run-ahead that is not the next move. */
  lemma HungBefore<M(!new), E, F, O(!new)>(t: Target<M, O>, u: Update<F, O, E>, h: Hooks<F>, m: M, at: nat,
                                           p: Prof<E, F, O>)
    requires HooksOk(h) && Lawful(t) && Round(t, u, h, m, at, p).Hung?
    ensures Hooked(t, h, m) > 0 && IsHooked(t, h, t.After(t.obs(m), Hooked(t, h, m)))
    ensures t.Count(t.obs(m), Hooked(t, h, m)) < INSN_PER_CKPT
  {
    RanMoves(t, m, INSN_PER_CKPT);
    HooksBefore(t, h, t.obs(m), Hooked(t, h, m), Ran(t, m, INSN_PER_CKPT).moves);
    LandsMeans(t, h, Rewound(t, m), Hooked(t, h, m), Forwarded(t, Rewound(t, m), Hooked(t, h, m)),
               Landing(t, h, Rewound(t, m), Hooked(t, h, m)));
  }

  lemma LastRoundHung<M(!new), E, F, O(!new)>(
    t: Target<M, O>, u: Update<F, O, E>, h: Hooks<F>, o: O, p0: Prof<E, F, O>,
    n: nat, m: M, p: Prof<E, F, O>, submitted: seq<seq<TraceEntry>>, upTo: nat, at: nat, last: M)
    requires HooksOk(h) && Lawful(t)
    requires LastRound(t, u, h, o, p0, n, m, p, submitted, true, upTo, at, last)
    ensures n < upTo && IsHooked(t, h, t.After(o, upTo))
  {
    HungBefore(t, u, h, last, t.Count(o, at), Reference(t, u, h, SegmentClock(submitted), o, 0, p0, at));
    AfterAfter(t, o, n, upTo - n);
  }

  lemma HookedGenuine<M, F, O>(t: Target<M, O>, h: Hooks<F>, clock: Clock, o: O, at: nat, n: nat)
    requires HooksOk(h)
    ensures Genuine(t, HookedCalls(t, h, clock, o, at, n))
  {
    CallsReadTheClock(t, h, clock, o, at, n);
    var calls := HookedCalls(t, h, clock, o, at, n);
    forall k | 0 <= k < |calls| ensures !t.silent(calls[k].state) {
      assert calls[k] in calls;
    }
  }

  /** The call stacks are those that an independent reader takes from the history: for each pid the entries
      whose exit has not been passed, in order; and a pop of an empty stack is on record exactly if there
      has been one. */
  ghost predicate StacksRead<M, E, F, O>(t: Target<M, O>, u: Update<F, O, E>, h: Hooks<F>, clock: Clock, o: O,
                                         p0: Prof<E, F, O>, n: nat, p: Prof<E, F, O>)
    requires HooksOk(h)
  {
    && (forall pid: nat :: Stack(p.core, pid) == Standing(History(t, u, h, clock, o, 0, p0, n, pid)))
    && (p.underflow <==> p0.underflow || SomeEmptyExit(t, u, h, clock, o, 0, p0, n))
  }

  lemma ReferenceRead<M, E, F, O>(t: Target<M, O>, u: Update<F, O, E>, h: Hooks<F>, clock: Clock, o: O,
                                  p0: Prof<E, F, O>, n: nat)
    requires HooksOk(h)
    ensures StacksRead(t, u, h, clock, o, p0, n, Reference(t, u, h, clock, o, 0, p0, n))
  {
    forall pid: nat
      ensures Stack(Reference(t, u, h, clock, o, 0, p0, n).core, pid)
           == Standing(History(t, u, h, clock, o, 0, p0, n, pid))
    {
      StacksStand(t, u, h, clock, o, 0, p0, n, pid);
    }
    UnderflowExactlyWhen(t, u, h, clock, o, 0, p0, n);
  }

  /** What profiler_t::run makes of a guest, watched after any number of rounds from machine m0 and profiler
      state p0.  The submitted segments are the guest's trace, whatever happens.  The dispatches are those of
      the per-instruction loop if and only if the rounds are clean, which is asked of m0; then everything is
      as that loop leaves it after `upTo` moves.  These are the `n` made, or one more exactly if the last
      round, which began after `at` of them with the machine `last`, leaves its hook; or all up to the hooked
      instruction that a hung replay looks for. */
  ghost predicate FollowsGuest<M(!new), E, F, O(!new)>(
    t: Target<M, O>, u: Update<F, O, E>, h: Hooks<F>, m0: M, p0: Prof<E, F, O>, rounds: nat,
    n: nat, m: M, p: Prof<E, F, O>, submitted: seq<seq<TraceEntry>>, hung: bool, upTo: nat, at: nat, last: M)
    requires HooksOk(h) && Lawful(t)
  {
    && Traced(t, t.obs(m0), n, m, submitted)
    && (CleanRun(t, h, m0, rounds) <==> p.calls == HookedCalls(t, h, SegmentClock(submitted), t.obs(m0), 0, upTo))
    && (CleanRun(t, h, m0, rounds) <==> Genuine(t, p.calls))
    && (CleanRun(t, h, m0, rounds) ==>
          && Caught(t, u, h, t.obs(m0), p0, n, m, p, submitted, hung, upTo)
          && (submitted == [] && !hung ==> upTo == n)
          && (submitted != [] || hung ==>
                LastRound(t, u, h, t.obs(m0), p0, n, m, p, submitted, hung, upTo, at, last))
          && (hung ==> n < upTo && IsHooked(t, h, t.After(t.obs(m0), upTo)))
          // the time a hook reads is the total length of the segments before its own
          && (forall call <- p.calls :: call.time == SegmentStart(submitted, call.at))
          && StacksRead(t, u, h, SegmentClock(submitted), t.obs(m0), p0, upTo, p))
  }

  lemma RoundsFollow<M(!new), E, F, O(!new)>(
    t: Target<M, O>, u: Update<F, O, E>, h: Hooks<F>, m0: M, o: O, p0: Prof<E, F, O>, rounds: nat,
    n: nat, m: M, p: Prof<E, F, O>, submitted: seq<seq<TraceEntry>>, hung: bool, upTo: nat, at: nat, last: M)
    requires HooksOk(h) && Lawful(t) && o == t.obs(m0) && p0.calls == []
    requires Rounded(t, u, h, o, p0, n, m, p, submitted, hung, upTo, at, last)
    requires Genuine(t, p.calls) <==> CleanRun(t, h, m0, rounds)
    ensures FollowsGuest(t, u, h, m0, p0, rounds, n, m, p, submitted, hung, upTo, at, last)
  {
    HookedGenuine(t, h, SegmentClock(submitted), o, 0, upTo);
    if Genuine(t, p.calls) {
      if hung {
        LastRoundHung(t, u, h, o, p0, n, m, p, submitted, upTo, at, last);
      }
      ReferenceCalls(t, u, h, SegmentClock(submitted), o, 0, p0, upTo);
      CallsReadTheClock(t, h, SegmentClock(submitted), o, 0, upTo);
      ReferenceRead(t, u, h, SegmentClock(submitted), o, p0, upTo);
    }
  }

  class ProfilerRun<M(!new), E, F, O(!new)> {
    const target: Target<M, O>
    const update: Update<F, O, E>
    const hooks: Hooks<F>

    var machine: M
    var prof: Prof<E, F, O>
    var timestamp: nat
    var submitted: seq<seq<TraceEntry>>  // the segments handed to the logger
    var hung: bool                       // the replay loop of this round never ends

    constructor (target: Target<M, O>, update: Update<F, O, E>, hooks: Hooks<F>, machine: M, core: Core<E>)
      ensures this.target == target && this.update == update && this.hooks == hooks
      ensures this.machine == machine && prof == Prof(core, false, [])
      ensures timestamp == 0 && submitted == [] && !hung
    {
      this.target, this.update, this.hooks := target, update, hooks;
      this.machine, prof := machine, Prof(core, false, []);
      timestamp, submitted, hung := 0, [], false;
    }

    /** profiler_t::run. */
    method Run(rounds: nat) returns (ghost moves: nat, ghost upTo: nat, ghost at: nat, ghost last: M)
      requires HooksOk(hooks) && Lawful(target) && timestamp == 0 && submitted == [] && prof.calls == []
      modifies this
      ensures FollowsGuest(target, update, hooks, old(machine), old(prof), rounds,
                           moves, machine, prof, submitted, hung, upTo, at, last)
      ensures timestamp == |Flat(submitted)|
    {
      ghost var m, p := machine, prof;
      machine, prof, timestamp, submitted, hung, moves, upTo, at, last :=
        Rounds(target, update, hooks, machine, prof, rounds);
      RoundsFollow(target, update, hooks, m, target.obs(m), p, rounds, moves, machine, prof, submitted, hung,
                   upTo, at, last);
    }
  }
}
