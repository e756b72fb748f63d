/** The profiler's hooks and state, and the loop that looks at every instruction, which the chunked loop
    is measured against. */
module Hooking {
  import opened CallHistory
  import opened Common
  import opened Guest

  type CallStacks<E> = map<nat, seq<E>>

  /** What profiler_state_t holds and hooks may change. */
  datatype Core<E> = Core(
    callStacks: CallStacks<E>, curPid: nat, asidToBin: map<nat, string>, pidToBin: map<nat, string>)

  /** The registered hooks: prof_pc_to_func_ and the two address lists. */
  datatype Hooks<F> = Hooks(funcs: map<nat, F>, starts: seq<nat>, exits: seq<nat>)

  ghost predicate HooksOk<F>(h: Hooks<F>) {
    forall va :: va in h.starts <==> va in h.funcs
  }

  /** profiler_state_t::add_prof_func: the last function registered at an address is the one that
      is dispatched there. */
  function AddProfFunc<F>(h: Hooks<F>, va: nat, f: F): (r: Hooks<F>)
    ensures HooksOk(h) ==> HooksOk(r)
    ensures va in r.funcs && r.funcs[va] == f
    ensures forall w | w in h.funcs && w != va :: w in r.funcs && r.funcs[w] == h.funcs[w]
  {
    Hooks(h.funcs[va := f], h.starts + [va], h.exits)
  }

  /** profile_kernel_func_at_pc: pop at the exits, dispatch at `pc`. */
  method ProfileAtPc<F>(h0: Hooks<F>, f: F, pc: nat, evas: seq<nat>) returns (h: Hooks<F>)
    requires HooksOk(h0)
    ensures HooksOk(h) && pc in h.starts && h.funcs[pc] == f
    ensures forall va :: va in h.starts <==> va in h0.starts || va == pc
    ensures forall va | va in h0.funcs && va != pc :: va in h.funcs && h.funcs[va] == h0.funcs[va]
    ensures h.exits == h0.exits + evas
  {
    h := h0;
    for i := 0 to |evas|
      invariant h == h0.(exits := h0.exits + evas[..i])
    {
      h := h.(exits := h.exits + [evas[i]]);
    }
    assert evas[..|evas|] == evas;
    h := AddProfFunc(h, pc, f);
  }

  /** profile_kernel_func_at_exit: dispatch at every exit, pop nowhere. */
  method ProfileAtExit<F>(h0: Hooks<F>, f: F, evas: seq<nat>) returns (h: Hooks<F>)
    requires HooksOk(h0)
    ensures HooksOk(h) && h.exits == h0.exits
    ensures forall va :: va in h.starts <==> va in h0.starts || va in evas
    ensures forall va | va in evas :: va in h.funcs && h.funcs[va] == f
    ensures forall va | va in h0.funcs && va !in evas :: va in h.funcs && h.funcs[va] == h0.funcs[va]
  {
    h := h0;
    for i := 0 to |evas|
      invariant HooksOk(h) && h.exits == h0.exits
      invariant forall va :: va in h.starts <==> va in h0.starts || va in evas[..i]
      invariant forall va | va in evas[..i] :: va in h.funcs && h.funcs[va] == f
      invariant forall va | va in h0.funcs && va !in evas[..i] :: va in h.funcs && h.funcs[va] == h0.funcs[va]
    {
      h := AddProfFunc(h, evas[i], f);
    }
  }

  /** One dispatch: which hook, in which state, at which instruction index, and the time it can read. */
  datatype Call<F, O> = Call(func: F, state: O, at: nat, time: nat)

  /** The profiler as a per-instruction loop sees it.  `underflow` records that an empty vector was
      popped, which C++ leaves undefined. */
  datatype Prof<E, F, O> = Prof(core: Core<E>, underflow: bool, calls: seq<Call<F, O>>)

  function Stack<E>(c: Core<E>, pid: nat): seq<E> {
    if pid in c.callStacks then c.callStacks[pid] else []
  }

  function Push<E>(c: Core<E>, e: E): Core<E> {
    c.(callStacks := c.callStacks[c.curPid := Stack(c, c.curPid) + [e]])
  }

  function Pop<E, F, O>(p: Prof<E, F, O>): Prof<E, F, O> {
    var s := Stack(p.core, p.core.curPid);
    if s == [] then p.(core := p.core.(callStacks := p.core.callStacks[p.core.curPid := []]), underflow := true)
    else p.(core := p.core.(callStacks := p.core.callStacks[p.core.curPid := s[..|s| - 1]]))
  }

  function PopMany<E, F, O>(p: Prof<E, F, O>, n: nat): Prof<E, F, O> {
    if n == 0 then p else Pop(PopMany(p, n - 1))
  }

  /** A hook sees the machine, the profiler state and the timestamp, and may return a call-stack entry. */
  type Update<!F, !O, !E> = (F, O, Core<E>, nat) -> (Core<E>, Option<E>)

  function Dispatch<E, F, O>(u: Update<F, O, E>, f: F, o: O, at: nat, now: nat, p: Prof<E, F, O>): Prof<E, F, O> {
    var (c, e) := u(f, o, p.core, now);
    Prof(if e.Some? then Push(c, e.value) else c, p.underflow, p.calls + [Call(f, o, at, now)])
  }

  /** The timestamp that a hook finds at an instruction index. */
  type Clock = nat -> nat

  function StoppedAt(at: nat): Clock { (i: nat) => at }

  /** What the per-instruction loop does before each instruction: a start address wins over an exit
      address. */
  function Look<M, E, F, O>(t: Target<M, O>, u: Update<F, O, E>, h: Hooks<F>, o: O, at: nat, now: nat, p: Prof<E, F, O>)
    : Prof<E, F, O>
    requires HooksOk(h)
  {
    if t.Pc(o) in h.starts then Dispatch(u, h.funcs[t.Pc(o)], o, at, now, p)
    else if t.Pc(o) in h.exits then Pop(p)
    else p
  }

  /** `look` before each instruction among n moves, the first instruction being number `at`. */
  function Watch<M, O, P>(t: Target<M, O>, look: (O, nat, P) -> P, o: O, at: nat, p: P, n: nat): P {
    if n == 0 then p
    else
      var before, last := Watch(t, look, o, at, p, n - 1), t.After(o, n - 1);
      if t.silent(last) then before else look(last, at + t.Count(o, n - 1), before)
  }

  /** The watch may be cut anywhere: after `a` moves, where the guest is `o'` and `q` has been done. */
  lemma {:induction false} WatchWatch<M, O, P>(
    t: Target<M, O>, look: (O, nat, P) -> P, o: O, at: nat, p: P, a: nat, b: nat, o': O, at': nat, q: P, n: nat)
    requires n == a + b && o' == t.After(o, a) && at' == at + t.Count(o, a) && q == Watch(t, look, o, at, p, a)
    ensures Watch(t, look, o', at', q, b) == Watch(t, look, o, at, p, n)
    decreases b
  {
    if b > 0 {
      WatchWatch(t, look, o, at, p, a, b - 1, o', at', q, n - 1);
      MovesJoin(t, o, a, b - 1, n - 1);
    }
  }

  /** What the per-instruction loop does, as a function of the instruction, its number and the profiler. */
  function Looking<M, E, F, O>(t: Target<M, O>, u: Update<F, O, E>, h: Hooks<F>, clock: Clock)
    : (O, nat, Prof<E, F, O>) -> Prof<E, F, O>
    requires HooksOk(h)
  {
    (o: O, i: nat, p: Prof<E, F, O>) => Look(t, u, h, o, i, clock(i), p)
  }

  /** The per-instruction loop for n moves, beginning with instruction `at`. */
  function Reference<M, E, F, O>(t: Target<M, O>, u: Update<F, O, E>, h: Hooks<F>, clock: Clock, o: O, at: nat,
                                 p: Prof<E, F, O>, n: nat): Prof<E, F, O>
    requires HooksOk(h)
  {
    Watch(t, Looking(t, u, h, clock), o, at, p, n)
  }

  lemma ReferenceLast<M, E, F, O>(
    t: Target<M, O>, u: Update<F, O, E>, h: Hooks<F>, clock: Clock, o: O, at: nat, p: Prof<E, F, O>, n: nat)
    requires HooksOk(h) && n > 0
    ensures var before, last := Reference(t, u, h, clock, o, at, p, n - 1), t.After(o, n - 1);
            var i := at + t.Count(o, n - 1);
            Reference(t, u, h, clock, o, at, p, n)
            == if t.silent(last) then before else Look(t, u, h, last, i, clock(i), before)
  {
  }

  /** It may be cut anywhere. */
  lemma ReferenceReference<M, E, F, O>(
    t: Target<M, O>, u: Update<F, O, E>, h: Hooks<F>, clock: Clock, o: O, at: nat, p: Prof<E, F, O>, a: nat, b: nat)
    requires HooksOk(h)
    ensures Reference(t, u, h, clock, t.After(o, a), at + t.Count(o, a), Reference(t, u, h, clock, o, at, p, a), b)
         == Reference(t, u, h, clock, o, at, p, a + b)
  {
    WatchWatch(t, Looking(t, u, h, clock), o, at, p, a, b, t.After(o, a), at + t.Count(o, a),
               Reference(t, u, h, clock, o, at, p, a), a + b);
  }

  /** An instruction at an exit address. */
  predicate IsExit<M, F, O>(t: Target<M, O>, h: Hooks<F>, o: O) { !t.silent(o) && t.Pc(o) in h.exits }

  /** An instruction at a hooked address. */
  predicate IsHooked<M, F, O>(t: Target<M, O>, h: Hooks<F>, o: O) { !t.silent(o) && t.Pc(o) in h.starts }

  /** The number of exits among the first n moves. */
  function Exits<M, F, O>(t: Target<M, O>, h: Hooks<F>, o: O, n: nat): nat {
    if n == 0 then 0 else Exits(t, h, o, n - 1) + if IsExit(t, h, t.After(o, n - 1)) then 1 else 0
  }

  /** No hooked instruction among the first n moves. */
  predicate Quiet<M, F, O>(t: Target<M, O>, h: Hooks<F>, o: O, n: nat) {
    forall j | 0 <= j < n :: !IsHooked(t, h, t.After(o, j))
  }

  lemma LookQuietly<M, E, F, O>(t: Target<M, O>, u: Update<F, O, E>, h: Hooks<F>, o: O, at: nat, now: nat,
                                p: Prof<E, F, O>)
    requires HooksOk(h) && !IsHooked(t, h, o)
    ensures (if t.silent(o) then p else Look(t, u, h, o, at, now, p)) == if IsExit(t, h, o) then Pop(p) else p
  {
  }

  /** Then n moves do nothing but pop once per exit, so the pops may be counted first and done together. */
  lemma {:induction false} QuietStretch<M, E, F, O>(
    t: Target<M, O>, u: Update<F, O, E>, h: Hooks<F>, clock: Clock, o: O, at: nat, p: Prof<E, F, O>, n: nat)
    requires HooksOk(h) && Quiet(t, h, o, n)
    ensures Reference(t, u, h, clock, o, at, p, n) == PopMany(p, Exits(t, h, o, n))
  {
    if n > 0 {
      QuietStretch(t, u, h, clock, o, at, p, n - 1);
      ReferenceLast(t, u, h, clock, o, at, p, n);
      var i := at + t.Count(o, n - 1);
      LookQuietly(t, u, h, t.After(o, n - 1), i, clock(i), PopMany(p, Exits(t, h, o, n - 1)));
    }
  }

  // ----- the dispatches and their times

  /** The dispatches that n moves ask for: one per hooked instruction, in order, each in the state just
      before the instruction. */
  function HookedCalls<M, F, O>(t: Target<M, O>, h: Hooks<F>, clock: Clock, o: O, at: nat, n: nat): seq<Call<F, O>>
    requires HooksOk(h)
  {
    if n == 0 then []
    else
      var last, i := t.After(o, n - 1), at + t.Count(o, n - 1);
      HookedCalls(t, h, clock, o, at, n - 1)
      + if IsHooked(t, h, last) then [Call(h.funcs[t.Pc(last)], last, i, clock(i))] else []
  }

  lemma LookCalls<M, E, F, O>(t: Target<M, O>, u: Update<F, O, E>, h: Hooks<F>, o: O, at: nat, now: nat,
                              p: Prof<E, F, O>)
    requires HooksOk(h)
    ensures (if t.silent(o) then p else Look(t, u, h, o, at, now, p)).calls
         == p.calls + if IsHooked(t, h, o) then [Call(h.funcs[t.Pc(o)], o, at, now)] else []
  {
  }

  /** Whatever the hooks do to the profiler state, the dispatches are exactly those. */
  lemma {:induction false} ReferenceCalls<M, E, F, O>(
    t: Target<M, O>, u: Update<F, O, E>, h: Hooks<F>, clock: Clock, o: O, at: nat, p: Prof<E, F, O>, n: nat)
    requires HooksOk(h)
    ensures Reference(t, u, h, clock, o, at, p, n).calls == p.calls + HookedCalls(t, h, clock, o, at, n)
  {
    if n > 0 {
      ReferenceCalls(t, u, h, clock, o, at, p, n - 1);
      ReferenceLast(t, u, h, clock, o, at, p, n);
      var last, i := t.After(o, n - 1), at + t.Count(o, n - 1);
      LookCalls(t, u, h, last, i, clock(i), Reference(t, u, h, clock, o, at, p, n - 1));
      Regroup(p.calls, HookedCalls(t, h, clock, o, at, n - 1),
              if IsHooked(t, h, last) then [Call(h.funcs[t.Pc(last)], last, i, clock(i))] else []);
    }
  }

  /** Each of them is made for an instruction, and reads the clock at that instruction's own index. */
  lemma {:induction false} CallsReadTheClock<M, F, O>(t: Target<M, O>, h: Hooks<F>, clock: Clock, o: O, at: nat, n: nat)
    requires HooksOk(h)
    ensures forall call <- HookedCalls(t, h, clock, o, at, n) ::
              && at <= call.at < at + t.Count(o, n) && call.time == clock(call.at)
              && IsHooked(t, h, call.state)
  {
    if n > 0 {
      CallsReadTheClock(t, h, clock, o, at, n - 1);
    }
  }

  // ----- the call stacks

  /** The core is the other one but for the stack of one pid. */
  ghost predicate SameButFor<E>(c: Core<E>, d: Core<E>, pid: nat) {
    && c.curPid == d.curPid && c.asidToBin == d.asidToBin && c.pidToBin == d.pidToBin
    && (forall q: nat | q != pid :: (q in c.callStacks <==> q in d.callStacks)
                                  && (q in c.callStacks ==> c.callStacks[q] == d.callStacks[q]))
  }

  /** A dispatch leaves what the hook returns, with its entry, if there is one, as the last one of the pid
      that is then the current one. */
  lemma DispatchMeans<E, F, O>(u: Update<F, O, E>, f: F, o: O, at: nat, now: nat, p: Prof<E, F, O>)
    ensures var (c, e) := u(f, o, p.core, now);
            var r := Dispatch(u, f, o, at, now, p);
            && SameButFor(r.core, c, c.curPid)
            && (e.None? ==> r.core == c)
            && (e.Some? ==>
                  && c.curPid in r.core.callStacks
                  && var stack := r.core.callStacks[c.curPid];
                     && stack != [] && stack[|stack| - 1] == e.value
                     && stack[..|stack| - 1] == if c.curPid in c.callStacks then c.callStacks[c.curPid] else [])
            && r.underflow == p.underflow && |r.calls| == |p.calls| + 1
  {
  }

  /** An exit takes the last entry of the current pid away; if there is none, that is noted. */
  lemma PopMeans<E, F, O>(p: Prof<E, F, O>)
    ensures var pid, r := p.core.curPid, Pop(p);
            var was := if pid in p.core.callStacks then p.core.callStacks[pid] else [];
            && SameButFor(r.core, p.core, pid) && pid in r.core.callStacks && r.calls == p.calls
            && (was == [] ==> r.core.callStacks[pid] == [] && r.underflow)
            && (was != [] ==> r.core.callStacks[pid] + [was[|was| - 1]] == was && r.underflow == p.underflow)
  {
  }

  /** What an instruction adds to the history of a pid: at a hooked address the entry that its hook returns,
      if the pid is then the current one, and at an exit address an exit, if it is.  A hook that changes the
      stack of the pid on its own begins a new history. */
  ghost function Visited<M, E, F, O>(t: Target<M, O>, u: Update<F, O, E>, h: Hooks<F>, o: O, now: nat, was: Core<E>,
                                     pid: nat, visits: seq<Visit<E>>): seq<Visit<E>>
    requires HooksOk(h)
  {
    if t.Pc(o) in h.starts then
      var (c, e) := u(h.funcs[t.Pc(o)], o, was, now);
      (if Stack(c, pid) == Stack(was, pid) then visits else Entering(Stack(c, pid)))
        + if e.Some? && c.curPid == pid then [Entered(e.value)] else []
    else if t.Pc(o) in h.exits && was.curPid == pid then visits + [Left]
    else visits
  }

  /** The history of a pid over n moves of the per-instruction loop. */
  ghost function History<M, E, F, O>(t: Target<M, O>, u: Update<F, O, E>, h: Hooks<F>, clock: Clock, o: O, at: nat,
                                     p: Prof<E, F, O>, n: nat, pid: nat): seq<Visit<E>>
    requires HooksOk(h)
  {
    if n == 0 then Entering(Stack(p.core, pid))
    else
      var before, last := History(t, u, h, clock, o, at, p, n - 1, pid), t.After(o, n - 1);
      if t.silent(last) then before
      else
        var was := Reference(t, u, h, clock, o, at, p, n - 1).core;
        Visited(t, u, h, last, clock(at + t.Count(o, n - 1)), was, pid, before)
  }

  lemma VisitStands<M, E, F, O>(t: Target<M, O>, u: Update<F, O, E>, h: Hooks<F>, o: O, at: nat, now: nat,
                                p: Prof<E, F, O>, pid: nat, visits: seq<Visit<E>>)
    requires HooksOk(h) && Stack(p.core, pid) == Standing(visits)
    ensures Stack(Look(t, u, h, o, at, now, p).core, pid) == Standing(Visited(t, u, h, o, now, p.core, pid, visits))
  {
    if t.Pc(o) in h.starts {
      var (c, e) := u(h.funcs[t.Pc(o)], o, p.core, now);
      EnteringStands(Stack(c, pid));
      var kept := if Stack(c, pid) == Stack(p.core, pid) then visits else Entering(Stack(c, pid));
      if e.Some? && c.curPid == pid {
        StandingNext(kept, Entered(e.value));
      } else {
        assert kept + [] == kept;
      }
    } else if t.Pc(o) in h.exits {
      StandingNext(visits, Left);
    }
  }

  /** The stack of any pid is the entries that still stand in its history, in their order. */
  lemma {:induction false} StacksStand<M, E, F, O>(
    t: Target<M, O>, u: Update<F, O, E>, h: Hooks<F>, clock: Clock, o: O, at: nat, p: Prof<E, F, O>, n: nat, pid: nat)
    requires HooksOk(h)
    ensures Stack(Reference(t, u, h, clock, o, at, p, n).core, pid)
         == Standing(History(t, u, h, clock, o, at, p, n, pid))
  {
    if n == 0 {
      EnteringStands(Stack(p.core, pid));
    } else {
      StacksStand(t, u, h, clock, o, at, p, n - 1, pid);
      ReferenceLast(t, u, h, clock, o, at, p, n);
      var last, i := t.After(o, n - 1), at + t.Count(o, n - 1);
      VisitStands(t, u, h, last, i, clock(i), Reference(t, u, h, clock, o, at, p, n - 1), pid,
                  History(t, u, h, clock, o, at, p, n - 1, pid));
    }
  }

  /** Move k is an instruction at an exit address, with nothing standing in the current pid's history. */
  ghost predicate EmptyExit<M, E, F, O>(t: Target<M, O>, u: Update<F, O, E>, h: Hooks<F>, clock: Clock, o: O, at: nat,
                                        p: Prof<E, F, O>, k: nat)
    requires HooksOk(h)
  {
    && !IsHooked(t, h, t.After(o, k)) && IsExit(t, h, t.After(o, k))
    && Standing(History(t, u, h, clock, o, at, p, k, Reference(t, u, h, clock, o, at, p, k).core.curPid)) == []
  }

  /** That happens in the first n moves. */
  ghost predicate SomeEmptyExit<M, E, F, O>(t: Target<M, O>, u: Update<F, O, E>, h: Hooks<F>, clock: Clock, o: O,
                                            at: nat, p: Prof<E, F, O>, n: nat)
    requires HooksOk(h)
  {
    exists k: nat :: k < n && EmptyExit(t, u, h, clock, o, at, p, k)
  }

  lemma SomeEmptyExitNext<M, E, F, O>(t: Target<M, O>, u: Update<F, O, E>, h: Hooks<F>, clock: Clock, o: O, at: nat,
                                      p: Prof<E, F, O>, n: nat)
    requires HooksOk(h) && n > 0
    ensures SomeEmptyExit(t, u, h, clock, o, at, p, n)
       <==> SomeEmptyExit(t, u, h, clock, o, at, p, n - 1) || EmptyExit(t, u, h, clock, o, at, p, n - 1)
  {
    if k: nat :| k < n && EmptyExit(t, u, h, clock, o, at, p, k) {
      assert k == n - 1 || k < n - 1;
    }
  }

  lemma EmptyExitIs<M, E, F, O>(t: Target<M, O>, u: Update<F, O, E>, h: Hooks<F>, clock: Clock, o: O, at: nat,
                                p: Prof<E, F, O>, k: nat, last: O, before: Prof<E, F, O>)
    requires HooksOk(h) && last == t.After(o, k) && before == Reference(t, u, h, clock, o, at, p, k)
    ensures EmptyExit(t, u, h, clock, o, at, p, k)
       <==> !IsHooked(t, h, last) && IsExit(t, h, last) && Stack(before.core, before.core.curPid) == []
  {
    StacksStand(t, u, h, clock, o, at, p, k, before.core.curPid);
  }

  /** An empty stack is popped exactly when it does. */
  lemma {:induction false} UnderflowExactlyWhen<M, E, F, O>(
    t: Target<M, O>, u: Update<F, O, E>, h: Hooks<F>, clock: Clock, o: O, at: nat, p: Prof<E, F, O>, n: nat)
    requires HooksOk(h)
    ensures Reference(t, u, h, clock, o, at, p, n).underflow
       <==> p.underflow || SomeEmptyExit(t, u, h, clock, o, at, p, n)
  {
    if n > 0 {
      UnderflowExactlyWhen(t, u, h, clock, o, at, p, n - 1);
      ReferenceLast(t, u, h, clock, o, at, p, n);
      var last, before := t.After(o, n - 1), Reference(t, u, h, clock, o, at, p, n - 1);
      var i := at + t.Count(o, n - 1);
      UnderflowNext(t, u, h, last, i, clock(i), before);
      EmptyExitIs(t, u, h, clock, o, at, p, n - 1, last, before);
      SomeEmptyExitNext(t, u, h, clock, o, at, p, n);
    }
  }

  lemma UnderflowNext<M, E, F, O>(t: Target<M, O>, u: Update<F, O, E>, h: Hooks<F>, o: O, at: nat, now: nat,
                                  p: Prof<E, F, O>)
    requires HooksOk(h)
    ensures (if t.silent(o) then p else Look(t, u, h, o, at, now, p)).underflow
       <==> p.underflow || (!IsHooked(t, h, o) && IsExit(t, h, o) && Stack(p.core, p.core.curPid) == [])
  {
  }
}
