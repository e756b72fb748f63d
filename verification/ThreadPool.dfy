/** The thread pool (threadpool_t): jobs and their two arguments travel in three queues, any number of
    workers take them from the front, and stop() makes the workers leave.

    The pool runs as a state machine over its critical sections.  The workers are alike, so a state only
    says how many wait, what the others run, and how many have left. */
module ThreadPool {
  import opened Common

  /** A job with its arguments. */
  datatype Job<J, T, S> = Job(job: J, trace: T, oname: S)

  function Zip<J, T, S>(jobs: seq<J>, traces: seq<T>, onames: seq<S>): (r: seq<Job<J, T, S>>)
    requires |jobs| == |traces| == |onames|
    ensures |r| == |jobs|
  {
    seq(|jobs|, i requires 0 <= i < |jobs| => Job(jobs[i], traces[i], onames[i]))
  }

  // ----- the runs

  /** The pool and its workers.  `queued`, `taken` and `finished` are the history, in order. */
  datatype State<!A> = State(
    waiting: seq<A>, shouldTerminate: bool,
    idle: nat, running: multiset<A>, exited: nat,
    queued: seq<A>, taken: seq<A>, finished: seq<A>)
  {
    function Threads(): nat { idle + |running| + exited }
  }

  datatype Action<A> = QueueJob(job: A) | SetTerminate | Take | Leave | Finish(job: A)

  function Start<A>(threads: nat): State<A> {
    State([], false, threads, multiset{}, 0, [], [], [])
  }

  predicate Enabled<A(==)>(s: State<A>, a: Action<A>) {
    match a
    case QueueJob(_) => true
    case SetTerminate => true
    case Take => s.idle > 0 && s.waiting != [] && !s.shouldTerminate
    case Leave => s.idle > 0 && s.shouldTerminate
    case Finish(job) => job in s.running
  }

  function Step<A(==)>(s: State<A>, a: Action<A>): State<A>
    requires Enabled(s, a)
  {
    match a
    case QueueJob(job) => s.(waiting := s.waiting + [job], queued := s.queued + [job])
    case SetTerminate => s.(shouldTerminate := true)
    case Take =>
      s.(waiting := s.waiting[1..], idle := s.idle - 1,
         running := s.running + multiset{s.waiting[0]}, taken := s.taken + [s.waiting[0]])
    case Leave => s.(idle := s.idle - 1, exited := s.exited + 1)
    case Finish(job) =>
      s.(running := s.running - multiset{job}, idle := s.idle + 1, finished := s.finished + [job])
  }

  predicate EnabledRun<A(==)>(s: State<A>, run: seq<Action<A>>)
    decreases |run|
  {
    run == [] || (Enabled(s, run[0]) && EnabledRun(Step(s, run[0]), run[1..]))
  }

  function Run<A(==)>(s: State<A>, run: seq<Action<A>>): State<A>
    requires EnabledRun(s, run)
    decreases |run|
  {
    if run == [] then s else Run(Step(s, run[0]), run[1..])
  }

  /** What was queued was taken, in order, or still waits; what was taken has finished or runs. */
  ghost predicate Inv<A>(s: State<A>) {
    && s.queued == s.taken + s.waiting
    && multiset(s.taken) == multiset(s.finished) + s.running
    && (s.exited > 0 ==> s.shouldTerminate)
  }

  lemma StepKeepsInv<A>(s: State<A>, a: Action<A>)
    requires Inv(s) && Enabled(s, a)
    ensures Inv(Step(s, a)) && Step(s, a).Threads() == s.Threads()
    ensures s.shouldTerminate ==>
      Step(s, a).shouldTerminate && Step(s, a).taken == s.taken && s.waiting <= Step(s, a).waiting
  {
    match a
    case Take => TakeKeepsInv(s);
    case Finish(job) => FinishKeepsInv(s, job);
    case QueueJob(job) =>
      assert (s.taken + s.waiting) + [job] == s.taken + (s.waiting + [job]);
    case _ =>
  }

  lemma TakeKeepsInv<A>(s: State<A>)
    requires Inv(s) && Enabled(s, Take)
    ensures Inv(Step(s, Take)) && Step(s, Take).Threads() == s.Threads()
  {
    assert s.waiting == [s.waiting[0]] + s.waiting[1..];
  }

  lemma FinishKeepsInv<A>(s: State<A>, job: A)
    requires Inv(s) && Enabled(s, Finish(job))
    ensures Inv(Step(s, Finish(job))) && Step(s, Finish(job)).Threads() == s.Threads()
  {
    assert s.running == (s.running - multiset{job}) + multiset{job};
  }

  /** For any number of workers and any interleaving: each queued job is taken at most once, in order and
      with its own arguments; the rest still waits.  Once stop is set, nothing more is taken. */
  lemma {:induction false} RunKeepsInv<A>(s: State<A>, run: seq<Action<A>>)
    requires Inv(s) && EnabledRun(s, run)
    ensures Inv(Run(s, run)) && Run(s, run).Threads() == s.Threads()
    ensures s.shouldTerminate ==> Run(s, run).taken == s.taken && s.waiting <= Run(s, run).waiting
    decreases |run|
  {
    if run != [] {
      StepKeepsInv(s, run[0]);
      RunKeepsInv(Step(s, run[0]), run[1..]);
    }
  }

  /** After stop() has joined its threads, the jobs that ran are exactly those taken before it, so all
      queued jobs have run if and only if none waits. */
  lemma JoinedPoolRanExactlyTheTaken<A>(threads: nat, run: seq<Action<A>>)
    requires EnabledRun(Start(threads), run)
    ensures var s := Run(Start(threads), run);
            s.exited == threads ==>
              multiset(s.queued) == multiset(s.finished) + multiset(s.waiting)
              && (multiset(s.finished) == multiset(s.queued) <==> s.waiting == [])
  {
    RunKeepsInv(Start<A>(threads), run);
    var s := Run(Start(threads), run);
    if s.exited == threads {
      assert |s.running| == 0;
      assert s.running == multiset{};
      assert multiset(s.finished) == multiset(s.queued) ==> |multiset(s.waiting)| == 0;
    }
  }

  /** What stop() does can be told when it is called: whatever happens until its threads have joined, all
      jobs queued by then have run if and only if none waits, which is what busy() answers. */
  lemma StopRunsAllExactlyWhenNotBusy<A>(s: State<A>, run: seq<Action<A>>)
    requires Inv(s) && EnabledRun(Step(s, SetTerminate), run)
    ensures var r := Run(Step(s, SetTerminate), run);
            r.exited == s.Threads() ==>
              multiset(r.finished) == multiset(s.taken)
              && (multiset(r.finished) == multiset(s.queued) <==> s.waiting == [])
              && s.queued <= r.queued && (r.queued == s.queued ==> r.waiting == s.waiting)
  {
    StepKeepsInv(s, SetTerminate);
    RunKeepsInv(Step(s, SetTerminate), run);
    QueuedGrows(Step(s, SetTerminate), run);
    var r := Run(Step(s, SetTerminate), run);
    if r.exited == s.Threads() {
      assert |r.running| == 0;
      assert r.running == multiset{};
      assert multiset(s.queued) == multiset(s.taken) + multiset(s.waiting);
      assert multiset(s.queued) == multiset(s.taken) ==> |multiset(s.waiting)| == 0;
    }
  }

  lemma {:induction false} QueuedGrows<A>(s: State<A>, run: seq<Action<A>>)
    requires EnabledRun(s, run)
    ensures s.queued <= Run(s, run).queued
    decreases |run|
  {
    if run != [] {
      QueuedGrows(Step(s, run[0]), run[1..]);
    }
  }

  /** What waits when stop is set never runs: no later step takes it. */
  lemma StopLosesWhatWaits<A>(s: State<A>, run: seq<Action<A>>)
    requires Inv(s) && EnabledRun(Step(s, SetTerminate), run)
    ensures var r := Run(Step(s, SetTerminate), run);
            s.waiting <= r.waiting && r.taken == s.taken && multiset(r.finished) <= multiset(s.taken)
  {
    StepKeepsInv(s, SetTerminate);
    RunKeepsInv(Step(s, SetTerminate), run);
  }

  /** So queueing a job and stopping at once can lose it, however many workers there are. */
  lemma LastJobCanBeLost<A>(threads: nat, job: A)
    ensures var run := [QueueJob(job), SetTerminate] + Leaves(threads);
            && EnabledRun(Start(threads), run)
            && Run(Start(threads), run).exited == threads
            && Run(Start(threads), run).finished == []
            && Run(Start(threads), run).queued == [job]
  {
    var leaves := Leaves<A>(threads);
    var run := [QueueJob(job), SetTerminate] + leaves;
    assert run[1..] == [SetTerminate] + leaves && run[1..][1..] == leaves;
    var s := Step(Step(Start(threads), QueueJob(job)), SetTerminate);
    AllLeave(s, threads);
  }

  function Leaves<A>(n: nat): seq<Action<A>> {
    if n == 0 then [] else [Leave] + Leaves(n - 1)
  }

  lemma {:induction false} AllLeave<A>(s: State<A>, n: nat)
    requires s.shouldTerminate && s.idle >= n
    ensures EnabledRun(s, Leaves(n))
    ensures Run(s, Leaves(n)) == s.(idle := s.idle - n, exited := s.exited + n)
    decreases n
  {
    if n > 0 {
      assert Leaves<A>(n)[1..] == Leaves(n - 1);
      AllLeave(Step(s, Leave), n - 1);
    }
  }

  // ----- a pool of one

  /** A single worker finishes the jobs in the order in which they were queued. */
  ghost predicate OneByOne<A>(s: State<A>) {
    && s.queued == s.taken + s.waiting
    && ((s.running == multiset{} && s.taken == s.finished)
        || (s.taken != [] && s.running == multiset{s.taken[|s.taken| - 1]} && s.taken[..|s.taken| - 1] == s.finished))
    && s.Threads() == 1
  }

  lemma StepKeepsOneByOne<A>(s: State<A>, a: Action<A>)
    requires OneByOne(s) && Enabled(s, a)
    ensures OneByOne(Step(s, a))
  {
    match a
    case Take => TakeKeepsOneByOne(s);
    case Finish(job) => FinishKeepsOneByOne(s, job);
    case QueueJob(job) =>
      assert (s.taken + s.waiting) + [job] == s.taken + (s.waiting + [job]);
    case _ =>
  }

  lemma TakeKeepsOneByOne<A>(s: State<A>)
    requires OneByOne(s) && Enabled(s, Take)
    ensures OneByOne(Step(s, Take))
  {
    assert s.waiting == [s.waiting[0]] + s.waiting[1..];
    assert s.running == multiset{};
  }

  lemma FinishKeepsOneByOne<A>(s: State<A>, job: A)
    requires OneByOne(s) && Enabled(s, Finish(job))
    ensures OneByOne(Step(s, Finish(job)))
  {
    assert s.taken == s.taken[..|s.taken| - 1] + [job];
    assert s.running == multiset{job};
  }

  lemma {:induction false} OneWorkerKeepsOrder<A>(s: State<A>, run: seq<Action<A>>)
    requires OneByOne(s) && EnabledRun(s, run)
    ensures OneByOne(Run(s, run))
    ensures Run(s, run).finished <= Run(s, run).queued
    decreases |run|
  {
    if run != [] {
      StepKeepsOneByOne(s, run[0]);
      OneWorkerKeepsOrder(Step(s, run[0]), run[1..]);
    }
  }

  lemma RunCons<A>(s: State<A>, a: Action<A>, rest: seq<Action<A>>)
    requires Enabled(s, a) && EnabledRun(Step(s, a), rest)
    ensures EnabledRun(s, [a] + rest) && Run(s, [a] + rest) == Run(Step(s, a), rest)
  {
    assert ([a] + rest)[1..] == rest;
  }

  lemma RunTwo<A>(s: State<A>, a: Action<A>, b: Action<A>, rest: seq<Action<A>>)
    requires Enabled(s, a) && Enabled(Step(s, a), b) && EnabledRun(Step(Step(s, a), b), rest)
    ensures EnabledRun(s, [a, b] + rest) && Run(s, [a, b] + rest) == Run(Step(Step(s, a), b), rest)
  {
    RunCons(Step(s, a), b, rest);
    RunCons(s, a, [b] + rest);
    assert [a, b] + rest == [a] + ([b] + rest);
  }

  /** With two workers or more, the second job can be done before the first. */
  lemma TwoWorkersCanReorder<A>(threads: nat, first: A, second: A) returns (run: seq<Action<A>>)
    requires threads >= 2 && first != second
    ensures EnabledRun(Start(threads), run)
    ensures Run(Start(threads), run).queued == [first, second]
    ensures Run(Start(threads), run).finished == [second, first]
  {
    var s := State([first, second], false, threads, multiset{}, 0, [first, second], [], []);
    var t := State([], false, threads - 2, multiset{first, second}, 0, [first, second], [first, second], []);
    FinishBoth(t, first, second);
    assert [first, second][1..] == [second] && [second][1..] == [];
    assert Step(Step(s, Take), Take) == t;
    RunTwo(s, Take, Take, [Finish(second), Finish(first)]);
    assert Step(Step(Start(threads), QueueJob(first)), QueueJob(second)) == s;
    RunTwo(Start(threads), QueueJob(first), QueueJob(second), [Take, Take] + [Finish(second), Finish(first)]);
    run := [QueueJob(first), QueueJob(second)] + ([Take, Take] + [Finish(second), Finish(first)]);
  }

  lemma FinishBoth<A>(t: State<A>, first: A, second: A)
    requires t.running == multiset{first, second} && t.finished == []
    ensures EnabledRun(t, [Finish(second), Finish(first)])
    ensures Run(t, [Finish(second), Finish(first)]).finished == [second, first]
    ensures Run(t, [Finish(second), Finish(first)]).queued == t.queued
  {
    RunTwo(t, Finish(second), Finish(first), []);
    assert [Finish(second), Finish(first)] + [] == [Finish(second), Finish(first)];
  }

  /** Without workers nothing finishes. */
  lemma {:induction false} NoWorkersFinishNothing<A>(s: State<A>, run: seq<Action<A>>)
    requires s.Threads() == 0 && EnabledRun(s, run)
    ensures Run(s, run).finished == s.finished
    decreases |run|
  {
    if run != [] {
      NoWorkersFinishNothing(Step(s, run[0]), run[1..]);
    }
  }

  // ----- the order of the jobs

  ghost predicate FinishesInOrder<A>(threads: nat, run: seq<Action<A>>) {
    EnabledRun(Start(threads), run) ==> Run(Start(threads), run).finished <= Run(Start(threads), run).queued
  }

  /** Whatever is queued and however the workers interleave, jobs finish in the order of the queue. */
  ghost predicate KeepsOrder<A(!new)>(threads: nat) {
    forall run: seq<Action<A>> :: FinishesInOrder(threads, run)
  }

  lemma SmallPoolKeepsOrder<A>(threads: nat, run: seq<Action<A>>)
    requires threads <= 1
    ensures FinishesInOrder(threads, run)
  {
    if EnabledRun(Start(threads), run) {
      if threads == 0 {
        NoWorkersFinishNothing(Start<A>(0), run);
      } else {
        OneWorkerKeepsOrder(Start<A>(1), run);
      }
    }
  }

  /** If there are two different jobs at all, that takes a pool of at most one. */
  lemma KeepsOrderExactlyWhen<A(!new)>(threads: nat, first: A, second: A)
    requires first != second
    ensures KeepsOrder<A>(threads) <==> threads <= 1
  {
    if threads <= 1 {
      forall run: seq<Action<A>> ensures FinishesInOrder(threads, run) {
        SmallPoolKeepsOrder(threads, run);
      }
    } else {
      var run := TwoWorkersCanReorder(threads, first, second);
      assert [second, first][0] != [first, second][0];
      assert !FinishesInOrder(threads, run);
    }
  }

  /** How many threads start() makes. */
  function NumThreads(hardware: nat, maxConcurrency: nat): nat {
    var most := if hardware < maxConcurrency then hardware else maxConcurrency;
    if hardware / 16 < most then most else hardware / 16
  }

  /** As many as were asked for, but never fewer than one for every sixteen hardware threads, nor more than
      those. */
  lemma NumThreadsIs(hardware: nat, maxConcurrency: nat)
    ensures maxConcurrency <= hardware / 16 ==> NumThreads(hardware, maxConcurrency) == hardware / 16
    ensures hardware / 16 <= maxConcurrency <= hardware ==> NumThreads(hardware, maxConcurrency) == maxConcurrency
    ensures hardware <= maxConcurrency ==> NumThreads(hardware, maxConcurrency) == hardware
  {
  }

  lemma OneThreadExactlyWhen(hardware: nat)
    ensures NumThreads(hardware, 1) == 1 <==> 1 <= hardware < 32
  {
  }

  /** A pool that is asked for at most `maxConcurrency` threads keeps the order exactly on machines with
      fewer than 32 hardware threads, if one thread was asked for; a pool for more, only on those with one. */
  lemma StartedPoolKeepsOrderExactlyWhen<A(!new)>(hardware: nat, maxConcurrency: nat, first: A, second: A)
    requires first != second
    ensures KeepsOrder<A>(NumThreads(hardware, maxConcurrency))
       <==> hardware < 32 && (hardware <= 1 || maxConcurrency <= 1)
  {
    KeepsOrderExactlyWhen(NumThreads(hardware, maxConcurrency), first, second);
  }

  // ----- the object

  /** threadpool_t with its queues.  `state` is the pool's place in the runs above: every method is a step. */
  class Pool<J, T, S> {
    var jobs: seq<J>
    var traces: seq<T>
    var ofnames: seq<S>
    var shouldTerminate: bool
    ghost var state: State<Job<J, T, S>>

    /** The three queues stay in lockstep and hold the waiting jobs. */
    ghost predicate Valid()
      reads this
    {
      && |jobs| == |traces| == |ofnames|
      && state.waiting == Zip(jobs, traces, ofnames)
      && state.shouldTerminate == shouldTerminate
      && Inv(state)
    }

    /** Construction and start(). */
    constructor (hardware: nat, maxConcurrency: nat)
      ensures Valid() && state == Start(NumThreads(hardware, maxConcurrency))
    {
      jobs, traces, ofnames, shouldTerminate := [], [], [], false;
      state := Start(NumThreads(hardware, maxConcurrency));
    }

    method QueueJob(job: J, trace: T, oname: S)
      requires Valid()
      modifies this
      ensures Valid() && state == Step(old(state), Action.QueueJob(Job(job, trace, oname)))
    {
      StepKeepsInv(state, Action.QueueJob(Job(job, trace, oname)));
      jobs := jobs + [job];
      traces := traces + [trace];
      ofnames := ofnames + [oname];
      state := Step(state, Action.QueueJob(Job(job, trace, oname)));
      assert Zip(jobs, traces, ofnames) == old(Zip(jobs, traces, ofnames)) + [Job(job, trace, oname)];
    }

    /** The critical section of stop(). */
    method SetTerminate()
      requires Valid()
      modifies this
      ensures Valid() && state == Step(old(state), Action.SetTerminate)
    {
      StepKeepsInv(state, Action.SetTerminate);
      shouldTerminate := true;
      state := Step(state, Action.SetTerminate);
    }

    method Busy() returns (busy: bool)
      requires Valid()
      ensures busy <==> state.waiting != []
    {
      busy := jobs != [];
    }

    /** threadloop's critical section, entered by an idle worker once its wait is over: None is the return
        of the worker. */
    method Dequeue() returns (next: Option<Job<J, T, S>>)
      requires Valid() && state.idle > 0 && (jobs != [] || shouldTerminate)
      modifies this
      ensures Valid() && (next.None? <==> old(shouldTerminate))
      ensures next.None? ==> state == Step(old(state), Leave)
      ensures next.Some? ==> Enabled(old(state), Take) && state == Step(old(state), Take)
      ensures next.Some? ==> next.value == old(state).waiting[0]
    {
      if shouldTerminate {
        StepKeepsInv(state, Leave);
        state := Step(state, Leave);
        return None;
      }
      StepKeepsInv(state, Take);
      next := Some(Job(jobs[0], traces[0], ofnames[0]));
      jobs := jobs[1..];
      traces := traces[1..];
      ofnames := ofnames[1..];
      state := Step(state, Take);
      assert Zip(jobs, traces, ofnames) == old(Zip(jobs, traces, ofnames))[1..];
    }

    /** The worker's call of its job returns. */
    ghost method Finished(job: Job<J, T, S>)
      requires Valid() && job in state.running
      modifies `state
      ensures Valid() && state == Step(old(state), Finish(job))
    {
      StepKeepsInv(state, Finish(job));
      state := Step(state, Finish(job));
    }
  }
}
