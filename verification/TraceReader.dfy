/** The multi-threaded trace reader (trace_reader_t): any number of producer threads claim files and
    buffers under a lock, fill the buffers in any order, and one consumer drains them in turn.

    The protocol is a state machine over its atomic steps.  What a file decodes to is the business of
    module TraceBuffer; here a file is the list of its steps. */
module TraceReader {

  /** A buffer: what the ring holds and whether it has been published. */
  datatype Buffer<T> = Buffer(ring: seq<T>, consumable: bool)

  /** A producer between its claim and its publication. */
  datatype Work = Work(pid: nat, file: nat)

  datatype Phase = Waiting | Draining | Drained

  datatype State<T> = State(
    buffers: seq<Buffer<T>>,
    producerId: nat,
    consumerId: nat,
    traceId: nat,              // the next file to claim
    init: bool,
    busy: map<nat, Work>,      // by thread
    phase: Phase,
    pops: nat,                 // buffers popped so far
    seen: seq<T>)              // every step the consumer has been given, in order

  function Initial<T>(n: nat): State<T> {
    State(seq(n, _ => Buffer([], false)), 0, 0, 0, true, map[], Waiting, 0, [])
  }

  /** The files, as they will appear in the directory. */
  type Files<T> = nat -> seq<T>

  datatype Step =
    | Claim(thread: nat)       // the file exists and the claim rule holds
    | Fill(thread: nat)        // push one more step of the file
    | Publish(thread: nat)
    | Start                    // the consumer finds its buffer consumable
    | PopFront
    | DoneConsume
    | PopBuffer

  /** The rule in threadloop. */
  predicate MayClaim<T>(s: State<T>) {
    s.producerId != s.consumerId || s.init
  }

  ghost predicate Enabled<T>(files: Files<T>, s: State<T>, step: Step) {
    match step
    case Claim(t) => t !in s.busy && MayClaim(s) && s.producerId < |s.buffers|
    case Fill(t) =>
      t in s.busy && s.busy[t].pid < |s.buffers| && |s.buffers[s.busy[t].pid].ring| < |files(s.busy[t].file)|
    case Publish(t) =>
      t in s.busy && s.busy[t].pid < |s.buffers| && |s.buffers[s.busy[t].pid].ring| >= |files(s.busy[t].file)|
    case Start => s.phase == Waiting && s.consumerId < |s.buffers| && s.buffers[s.consumerId].consumable
    case PopFront => s.phase == Draining && s.consumerId < |s.buffers| && s.buffers[s.consumerId].ring != []
    case DoneConsume => s.phase == Draining && s.consumerId < |s.buffers| && s.buffers[s.consumerId].ring == []
    case PopBuffer => s.phase == Drained && |s.buffers| > 0
  }

  function SetBuffer<T>(s: State<T>, i: nat, b: Buffer<T>): State<T>
    requires i < |s.buffers|
  {
    s.(buffers := s.buffers[i := b])
  }

  function Next<T>(files: Files<T>, s: State<T>, step: Step): State<T>
    requires Enabled(files, s, step)
  {
    match step
    case Claim(t) =>
      s.(init := false, traceId := s.traceId + 1, busy := s.busy[t := Work(s.producerId, s.traceId)],
         producerId := (s.producerId + 1) % |s.buffers|)
    case Fill(t) =>
      var b := s.buffers[s.busy[t].pid];
      SetBuffer(s, s.busy[t].pid, b.(ring := b.ring + [files(s.busy[t].file)[|b.ring|]]))
    case Publish(t) =>
      var pid := s.busy[t].pid;
      SetBuffer(s, pid, s.buffers[pid].(consumable := true)).(busy := s.busy - {t})
    case Start => s.(phase := Draining)
    case PopFront =>
      var b := s.buffers[s.consumerId];
      SetBuffer(s, s.consumerId, b.(ring := b.ring[1..])).(seen := s.seen + [b.ring[0]])
    case DoneConsume =>
      SetBuffer(s, s.consumerId, s.buffers[s.consumerId].(consumable := false)).(phase := Drained)
    case PopBuffer =>
      s.(phase := Waiting, pops := s.pops + 1, consumerId := (s.consumerId + 1) % |s.buffers|)
  }

  // ----- the invariant

  lemma ModStep(a: nat, n: nat)
    requires n > 0
    ensures (a % n + 1) % n == (a + 1) % n
  {
    var q, r := a / n, a % n;
    assert a + 1 == n * q + (r + 1);
    if r + 1 < n {
      ModIs(q, n, r + 1);
    } else {
      assert n * q + n == n * (q + 1);
      ModIs(q + 1, n, 0);
    }
  }

  lemma ModIs(q: nat, n: nat, r: nat)
    requires r < n
    ensures (n * q + r) % n == r && (n * q + r) / n == q
  {
    var a := n * q + r;
    var d := a / n - q;
    assert n * d == r - a % n;
  }

  lemma ModPlus(a: nat, n: nat)
    requires n > 0
    ensures (a + n) % n == a % n
  {
    assert a + n == n * (a / n + 1) + a % n;
    ModIs(a / n + 1, n, a % n);
  }

  /** Files less than n apart have different buffers. */
  lemma ModDistinct(f: nat, g: nat, n: nat)
    requires f < g < f + n
    ensures f % n != g % n
  {
    var d := g / n - f / n;
    assert n * d == g - f - (g % n - f % n);
  }

  function BufferOf<T>(s: State<T>, f: nat): Buffer<T>
    requires |s.buffers| > 0
  {
    s.buffers[f % |s.buffers|]
  }

  /** The files 0, ..., k-1 one after the other. */
  function All<T>(files: Files<T>, k: nat): seq<T> {
    if k == 0 then [] else All(files, k - 1) + files(k - 1)
  }

  ghost predicate Parsing<T>(s: State<T>, f: nat) {
    exists t | t in s.busy :: s.busy[t].file == f
  }

  ghost predicate CountersOk<T>(s: State<T>) {
    var n := |s.buffers|;
    && n > 0
    && s.pops <= s.traceId <= s.pops + n
    && s.producerId == s.traceId % n
    && s.consumerId == s.pops % n
    && (s.init <==> s.traceId == 0)
  }

  ghost predicate WorkOk<T>(files: Files<T>, s: State<T>, w: Work)
    requires |s.buffers| > 0
  {
    && s.pops <= w.file < s.traceId
    && w.pid == w.file % |s.buffers|
    && !BufferOf(s, w.file).consumable
    && BufferOf(s, w.file).ring <= files(w.file)
  }

  /** The consumer has been given exactly the popped files and what is gone from the ring. */
  ghost predicate ConsumerOk<T>(files: Files<T>, s: State<T>)
    requires |s.buffers| > 0
  {
    var b := BufferOf(s, s.pops);
    match s.phase
    case Waiting => s.seen == All(files, s.pops)
    case Draining =>
      && s.pops < s.traceId && !Parsing(s, s.pops) && b.consumable
      && |b.ring| <= |files(s.pops)|
      && var gone := |files(s.pops)| - |b.ring|;
         b.ring == files(s.pops)[gone..] && s.seen == All(files, s.pops) + files(s.pops)[..gone]
    case Drained =>
      && s.pops < s.traceId && !Parsing(s, s.pops) && b == Buffer([], false)
      && s.seen == All(files, s.pops + 1)
  }

  ghost predicate PublishedOk<T>(files: Files<T>, s: State<T>, f: nat)
    requires |s.buffers| > 0
  {
    (s.pops < f < s.traceId || (f == s.pops < s.traceId && s.phase == Waiting)) && !Parsing(s, f) ==>
      BufferOf(s, f) == Buffer(files(f), true)
  }

  ghost predicate FreeOk<T>(s: State<T>, f: nat)
    requires |s.buffers| > 0
  {
    s.traceId <= f < s.pops + |s.buffers| ==> BufferOf(s, f) == Buffer([], false)
  }

  ghost predicate Inv<T>(files: Files<T>, s: State<T>) {
    && CountersOk(s)
    && (forall t | t in s.busy :: WorkOk(files, s, s.busy[t]))
    && (forall t, u | t in s.busy && u in s.busy && t != u :: s.busy[t].file != s.busy[u].file)
    && (forall f :: PublishedOk(files, s, f))
    && (forall f :: FreeOk(s, f))
    && ConsumerOk(files, s)
  }

  lemma InitialInv<T>(files: Files<T>, n: nat)
    requires n > 0
    ensures Inv(files, Initial(n))
  {
  }

  lemma ClaimKeepsInv<T>(files: Files<T>, s: State<T>, t: nat)
    requires Inv(files, s) && Enabled(files, s, Claim(t))
    ensures Inv(files, Next(files, s, Claim(t)))
  {
    var n, r := |s.buffers|, Next(files, s, Claim(t));
    ModStep(s.traceId, n);
    ClaimRule(files, s);
    assert FreeOk(s, s.traceId);
    assert forall f | f != s.traceId :: Parsing(r, f) <==> Parsing(s, f) by {
      forall f | f != s.traceId && Parsing(s, f) ensures Parsing(r, f) {
        var u :| u in s.busy && s.busy[u].file == f;
        assert r.busy[u].file == f;
      }
    }
    assert Parsing(r, s.traceId) by { assert r.busy[t].file == s.traceId; }
    forall f ensures PublishedOk(files, r, f) { assert PublishedOk(files, s, f); }
    forall f ensures FreeOk(r, f) { assert FreeOk(s, f); }
  }

  /** A claim is possible exactly when nothing was ever claimed, or when some but not all buffers
      are out. */
  lemma ClaimRule<T>(files: Files<T>, s: State<T>)
    requires CountersOk(s)
    ensures MayClaim(s) <==> s.traceId == 0 || 0 < s.traceId - s.pops < |s.buffers|
  {
    var n := |s.buffers|;
    if s.pops < s.traceId < s.pops + n {
      ModDistinct(s.pops, s.traceId, n);
    } else if s.traceId == s.pops + n {
      ModPlus(s.pops, n);
    }
  }

  /** Writing the buffer of one file leaves those of its neighbours alone. */
  lemma SetOther<T>(s: State<T>, f: nat, b: Buffer<T>)
    requires |s.buffers| > 0
    ensures forall g: nat | g != f && f < g + |s.buffers| && g < f + |s.buffers| ::
              BufferOf(SetBuffer(s, f % |s.buffers|, b), g) == BufferOf(s, g)
    ensures BufferOf(SetBuffer(s, f % |s.buffers|, b), f) == b
  {
    forall g: nat | g != f && f < g + |s.buffers| && g < f + |s.buffers|
      ensures BufferOf(SetBuffer(s, f % |s.buffers|, b), g) == BufferOf(s, g)
    {
      if g < f {
        ModDistinct(g, f, |s.buffers|);
      } else {
        ModDistinct(f, g, |s.buffers|);
      }
    }
  }

  lemma FillKeepsInv<T>(files: Files<T>, s: State<T>, t: nat)
    requires Inv(files, s) && Enabled(files, s, Fill(t))
    ensures Inv(files, Next(files, s, Fill(t)))
  {
    var r, w := Next(files, s, Fill(t)), s.busy[t];
    assert WorkOk(files, s, w);
    SetOther(s, w.file, BufferOf(r, w.file));
    assert Parsing(s, w.file);
    assert forall f :: Parsing(r, f) <==> Parsing(s, f);
    forall u | u in r.busy ensures WorkOk(files, r, r.busy[u]) { assert WorkOk(files, s, s.busy[u]); }
    forall f ensures PublishedOk(files, r, f) { assert PublishedOk(files, s, f); }
    forall f ensures FreeOk(r, f) { assert FreeOk(s, f); }
  }

  lemma PublishFreesThread<T>(files: Files<T>, s: State<T>, t: nat)
    requires Inv(files, s) && Enabled(files, s, Publish(t))
    ensures var r := Next(files, s, Publish(t));
            && !Parsing(r, s.busy[t].file)
            && (forall f | f != s.busy[t].file :: Parsing(r, f) <==> Parsing(s, f))
  {
    var r, w := Next(files, s, Publish(t)), s.busy[t];
    forall f | f != w.file ensures Parsing(r, f) <==> Parsing(s, f) {
      if Parsing(s, f) {
        var u :| u in s.busy && s.busy[u].file == f;
        assert r.busy[u].file == f;
      }
    }
  }

  lemma PublishKeepsWork<T>(files: Files<T>, s: State<T>, t: nat)
    requires Inv(files, s) && Enabled(files, s, Publish(t))
    ensures var r := Next(files, s, Publish(t));
            && (forall u | u in r.busy :: WorkOk(files, r, r.busy[u]))
            && (forall f :: FreeOk(r, f))
  {
    var r, w := Next(files, s, Publish(t)), s.busy[t];
    assert WorkOk(files, s, w);
    SetOther(s, w.file, BufferOf(r, w.file));
    forall u | u in r.busy ensures WorkOk(files, r, r.busy[u]) { assert WorkOk(files, s, s.busy[u]); }
    forall f ensures FreeOk(r, f) { assert FreeOk(s, f); }
  }

  lemma PublishKeepsInv<T>(files: Files<T>, s: State<T>, t: nat)
    requires Inv(files, s) && Enabled(files, s, Publish(t))
    ensures Inv(files, Next(files, s, Publish(t)))
  {
    var r, w := Next(files, s, Publish(t)), s.busy[t];
    assert WorkOk(files, s, w);
    assert Parsing(s, w.file);
    SetOther(s, w.file, BufferOf(r, w.file));
    PublishFreesThread(files, s, t);
    PublishKeepsWork(files, s, t);
    forall f ensures PublishedOk(files, r, f) { assert PublishedOk(files, s, f); }
  }

  lemma StartKeepsInv<T>(files: Files<T>, s: State<T>)
    requires Inv(files, s) && Enabled(files, s, Start)
    ensures Inv(files, Next(files, s, Start))
  {
    var r, p := Next(files, s, Start), s.pops;
    assert FreeOk(s, p) && PublishedOk(files, s, p);
    assert !Parsing(s, p);
    assert forall f :: Parsing(r, f) <==> Parsing(s, f);
    assert files(p)[0..] == files(p);
    forall u | u in r.busy ensures WorkOk(files, r, r.busy[u]) { assert WorkOk(files, s, s.busy[u]); }
    forall f ensures PublishedOk(files, r, f) { assert PublishedOk(files, s, f); }
    forall f ensures FreeOk(r, f) { assert FreeOk(s, f); }
  }

  lemma PopFrontKeepsInv<T>(files: Files<T>, s: State<T>)
    requires Inv(files, s) && Enabled(files, s, PopFront)
    ensures Inv(files, Next(files, s, PopFront))
  {
    var r, p := Next(files, s, PopFront), s.pops;
    SetOther(s, p, BufferOf(r, p));
    var gone := |files(p)| - |BufferOf(s, p).ring|;
    assert files(p)[..gone + 1] == files(p)[..gone] + [files(p)[gone]];
    assert files(p)[gone..][1..] == files(p)[gone + 1..];
    assert forall f :: Parsing(r, f) <==> Parsing(s, f);
    forall u | u in r.busy ensures WorkOk(files, r, r.busy[u]) {
      assert WorkOk(files, s, s.busy[u]);
      assert s.busy[u].file != p;
    }
    forall f ensures PublishedOk(files, r, f) { assert PublishedOk(files, s, f); }
    forall f ensures FreeOk(r, f) { assert FreeOk(s, f); }
  }

  lemma DoneConsumeKeepsInv<T>(files: Files<T>, s: State<T>)
    requires Inv(files, s) && Enabled(files, s, DoneConsume)
    ensures Inv(files, Next(files, s, DoneConsume))
  {
    var r, p := Next(files, s, DoneConsume), s.pops;
    SetOther(s, p, BufferOf(r, p));
    assert files(p)[..|files(p)|] == files(p);
    assert forall f :: Parsing(r, f) <==> Parsing(s, f);
    forall u | u in r.busy ensures WorkOk(files, r, r.busy[u]) {
      assert WorkOk(files, s, s.busy[u]);
      assert s.busy[u].file != p;
    }
    forall f ensures PublishedOk(files, r, f) { assert PublishedOk(files, s, f); }
    forall f ensures FreeOk(r, f) { assert FreeOk(s, f); }
  }

  lemma PopBufferKeepsInv<T>(files: Files<T>, s: State<T>)
    requires Inv(files, s) && Enabled(files, s, PopBuffer)
    ensures Inv(files, Next(files, s, PopBuffer))
  {
    var r, p, n := Next(files, s, PopBuffer), s.pops, |s.buffers|;
    ModStep(p, n);
    ModPlus(p, n);
    assert forall f :: Parsing(r, f) <==> Parsing(s, f);
    forall u | u in r.busy ensures WorkOk(files, r, r.busy[u]) {
      assert WorkOk(files, s, s.busy[u]);
      assert s.busy[u].file != p;
    }
    forall f ensures PublishedOk(files, r, f) { assert PublishedOk(files, s, f); }
    forall f ensures FreeOk(r, f) {
      assert FreeOk(s, f);
      if f == p + n {
        assert BufferOf(s, f) == BufferOf(s, p);
      }
    }
  }

  lemma StepKeepsInv<T>(files: Files<T>, s: State<T>, step: Step)
    requires Inv(files, s) && Enabled(files, s, step)
    ensures Inv(files, Next(files, s, step))
  {
    match step
    case Claim(t) => ClaimKeepsInv(files, s, t);
    case Fill(t) => FillKeepsInv(files, s, t);
    case Publish(t) => PublishKeepsInv(files, s, t);
    case Start => StartKeepsInv(files, s);
    case PopFront => PopFrontKeepsInv(files, s);
    case DoneConsume => DoneConsumeKeepsInv(files, s);
    case PopBuffer => PopBufferKeepsInv(files, s);
  }

  // ----- runs

  ghost predicate IsRun<T>(files: Files<T>, s: State<T>, steps: seq<Step>)
    decreases |steps|
  {
    steps == [] || (Enabled(files, s, steps[0]) && IsRun(files, Next(files, s, steps[0]), steps[1..]))
  }

  function Final<T>(files: Files<T>, s: State<T>, steps: seq<Step>): State<T>
    requires IsRun(files, s, steps)
    decreases |steps|
  {
    if steps == [] then s else Final(files, Next(files, s, steps[0]), steps[1..])
  }

  lemma {:induction false} RunKeepsInv<T>(files: Files<T>, s: State<T>, steps: seq<Step>)
    requires Inv(files, s) && IsRun(files, s, steps)
    ensures Inv(files, Final(files, s, steps))
    decreases |steps|
  {
    if steps != [] {
      StepKeepsInv(files, s, steps[0]);
      RunKeepsInv(files, Next(files, s, steps[0]), steps[1..]);
    }
  }

  /** Safety, for any number of threads and any interleaving: the consumer is given the files in
      order, each step once, and a buffer it has popped was given whole. */
  lemma ConsumerSeesFilesInOrder<T>(files: Files<T>, n: nat, steps: seq<Step>)
    requires n > 0 && IsRun(files, Initial(n), steps)
    ensures var s := Final(files, Initial(n), steps);
            && All(files, s.pops) <= s.seen <= All(files, s.pops + 1)
            && (s.phase == Waiting ==> s.seen == All(files, s.pops))
            && s.pops <= s.traceId <= s.pops + n
            && (MayClaim(s) <==> s.traceId == 0 || 0 < s.traceId - s.pops < n)
  {
    InitialInv<T>(files, n);
    RunKeepsInv(files, Initial(n), steps);
    var s := Final(files, Initial(n), steps);
    BuffersStay(files, Initial(n), steps);
    ClaimRule(files, s);
  }

  lemma {:induction false} BuffersStay<T>(files: Files<T>, s: State<T>, steps: seq<Step>)
    requires IsRun(files, s, steps)
    ensures |Final(files, s, steps).buffers| == |s.buffers|
    decreases |steps|
  {
    if steps != [] {
      BuffersStay(files, Next(files, s, steps[0]), steps[1..]);
    }
  }

  /** No buffer is owned twice: two producers never share one, and none touches the consumer's. */
  lemma NoSharedBuffer<T>(files: Files<T>, n: nat, steps: seq<Step>)
    requires n > 0 && IsRun(files, Initial(n), steps)
    ensures var s := Final(files, Initial(n), steps);
            && (forall t, u | t in s.busy && u in s.busy && t != u :: s.busy[t].pid != s.busy[u].pid)
            && (forall t | t in s.busy && s.phase != Waiting :: s.busy[t].pid != s.consumerId)
            && (forall t | t in s.busy :: s.busy[t].pid < n == |s.buffers| && !s.buffers[s.busy[t].pid].consumable)
  {
    InitialInv<T>(files, n);
    RunKeepsInv(files, Initial(n), steps);
    BuffersStay(files, Initial(n), steps);
    var s := Final(files, Initial(n), steps);
    forall t, u | t in s.busy && u in s.busy && t != u ensures s.busy[t].pid != s.busy[u].pid {
      assert WorkOk(files, s, s.busy[t]) && WorkOk(files, s, s.busy[u]);
      if s.busy[t].file < s.busy[u].file {
        ModDistinct(s.busy[t].file, s.busy[u].file, |s.buffers|);
      } else {
        ModDistinct(s.busy[u].file, s.busy[t].file, |s.buffers|);
      }
    }
    forall t | t in s.busy && s.phase != Waiting ensures s.busy[t].pid != s.consumerId {
      assert WorkOk(files, s, s.busy[t]);
      assert s.busy[t].file != s.pops;
      ModDistinct(s.pops, s.busy[t].file, |s.buffers|);
    }
    forall t | t in s.busy ensures s.busy[t].pid < n && !s.buffers[s.busy[t].pid].consumable {
      assert WorkOk(files, s, s.busy[t]);
    }
  }

  // ----- room in the rings

  /** What RefillDrained of module TraceBuffer asks of each file: its lines fit the ring. */
  ghost predicate FilesFit<T>(files: Files<T>, capacity: nat) {
    forall f :: |files(f)| <= capacity
  }

  /** Then no producer ever meets a full ring: at every point of every run a buffer holds part of one
      file, and one that is being filled has room.  A file that does not fit aborts its producer. */
  lemma FillsHaveRoom<T>(files: Files<T>, n: nat, steps: seq<Step>, capacity: nat)
    requires n > 0 && IsRun(files, Initial(n), steps) && FilesFit(files, capacity)
    ensures var s := Final(files, Initial(n), steps);
            && (forall i | 0 <= i < |s.buffers| :: |s.buffers[i].ring| <= capacity)
            && (forall t | Enabled(files, s, Fill(t)) :: |s.buffers[s.busy[t].pid].ring| < capacity)
  {
    InitialInv<T>(files, n);
    RunKeepsInv(files, Initial(n), steps);
    var s := Final(files, Initial(n), steps);
    forall i | 0 <= i < |s.buffers| ensures |s.buffers[i].ring| <= capacity {
      var f := FileOfBuffer(files, s, i);
      assert |files(f)| <= capacity;
    }
    forall t | Enabled(files, s, Fill(t)) ensures |s.buffers[s.busy[t].pid].ring| < capacity {
      assert |files(s.busy[t].file)| <= capacity;
    }
  }

  lemma NextFor(p: nat, n: nat, i: nat) returns (f: nat)
    requires i < n
    ensures p <= f < p + n && f % n == i
  {
    if i >= p % n {
      f := n * (p / n) + i;
      ModIs(p / n, n, i);
    } else {
      f := n * (p / n + 1) + i;
      ModIs(p / n + 1, n, i);
      assert n * (p / n + 1) == n * (p / n) + n;
    }
  }

  /** Each buffer belongs to one of the next n files, and holds no more than it. */
  lemma FileOfBuffer<T>(files: Files<T>, s: State<T>, i: nat) returns (f: nat)
    requires Inv(files, s) && i < |s.buffers|
    ensures |s.buffers[i].ring| <= |files(f)|
  {
    f := NextFor(s.pops, |s.buffers|, i);
    BufferHoldsPart(files, s, f);
  }

  lemma BufferHoldsPart<T>(files: Files<T>, s: State<T>, f: nat)
    requires Inv(files, s) && s.pops <= f < s.pops + |s.buffers|
    ensures |BufferOf(s, f).ring| <= |files(f)|
  {
    assert FreeOk(s, f) && PublishedOk(files, s, f);
    if Parsing(s, f) {
      var t :| t in s.busy && s.busy[t].file == f;
      assert WorkOk(files, s, s.busy[t]);
    }
  }

  // ----- where it stops

  /** Every claimed file has been popped, and something was claimed. */
  predicate CaughtUp<T>(s: State<T>) {
    s.traceId == s.pops > 0
  }

  /** Whoever works, works on a file that has not been popped. */
  lemma WorkIsAhead<T>(files: Files<T>, s: State<T>)
    requires Inv(files, s)
    ensures s.pops < s.traceId || s.busy == map[]
  {
    if t :| t in s.busy {
      assert WorkOk(files, s, s.busy[t]);
    }
  }

  /** The reader is stuck exactly when the consumer has caught up: then no step of anyone is
      possible, however many files are left, and otherwise some step is. */
  lemma StuckExactlyWhenCaughtUp<T>(files: Files<T>, s: State<T>)
    requires Inv(files, s)
    ensures (forall step :: !Enabled(files, s, step)) <==> CaughtUp(s)
  {
    ClaimRule(files, s);
    if CaughtUp(s) {
      WorkIsAhead(files, s);
      assert FreeOk(s, s.pops);
    } else if s.traceId == 0 {
      assert 0 !in s.busy;
      assert Enabled(files, s, Claim(0));
    } else if exists t :: t in s.busy {
      var t :| t in s.busy;
      assert WorkOk(files, s, s.busy[t]);
      assert Enabled(files, s, Fill(t)) || Enabled(files, s, Publish(t));
    } else if s.phase == Waiting {
      assert PublishedOk(files, s, s.pops);
      assert Enabled(files, s, Start);
    } else if s.phase == Draining {
      assert Enabled(files, s, PopFront) || Enabled(files, s, DoneConsume);
    } else {
      assert Enabled(files, s, PopBuffer);
    }
  }

  /** The step that gets it stuck: popping the last buffer that was claimed. */
  lemma PopOfLastClaimSticks<T>(files: Files<T>, s: State<T>)
    requires Inv(files, s) && Enabled(files, s, PopBuffer)
    ensures (forall step :: !Enabled(files, Next(files, s, PopBuffer), step)) <==> s.traceId == s.pops + 1
  {
    PopBufferKeepsInv(files, s);
    StuckExactlyWhenCaughtUp(files, Next(files, s, PopBuffer));
  }

  /** Some run from `s` gets stuck after a single file. */
  ghost predicate CanStick<T>(files: Files<T>, s: State<T>) {
    exists steps :: SticksBy(files, s, steps)
  }

  ghost predicate SticksBy<T>(files: Files<T>, s: State<T>, steps: seq<Step>) {
    && IsRun(files, s, steps)
    && Final(files, s, steps).traceId == 1 == Final(files, s, steps).pops
  }

  lemma StickOneStepLater<T>(files: Files<T>, s: State<T>, step: Step)
    requires Enabled(files, s, step) && CanStick(files, Next(files, s, step))
    ensures CanStick(files, s)
  {
    var steps :| SticksBy(files, Next(files, s, step), steps);
    assert ([step] + steps)[1..] == steps;
    assert SticksBy(files, s, [step] + steps);
  }

  /** Thread 0 has parsed k steps of file 0. */
  function Loading<T>(files: Files<T>, n: nat, k: nat): State<T>
    requires n > 0 && k <= |files(0)|
  {
    State(Initial<T>(n).buffers[0 := Buffer(files(0)[..k], false)], 1 % n, 0, 1, false,
          map[0 := Work(0, 0)], Waiting, 0, [])
  }

  /** File 0 is published and the consumer has taken k of its steps. */
  function Taking<T>(files: Files<T>, n: nat, k: nat): State<T>
    requires n > 0 && k <= |files(0)|
  {
    State(Initial<T>(n).buffers[0 := Buffer(files(0)[k..], true)], 1 % n, 0, 1, false,
          map[], Draining, 0, files(0)[..k])
  }

  lemma {:induction false} TakingSticks<T>(files: Files<T>, n: nat, k: nat)
    requires n > 0 && k <= |files(0)|
    ensures CanStick(files, Taking(files, n, k))
    decreases |files(0)| - k
  {
    var s := Taking(files, n, k);
    if k < |files(0)| {
      assert files(0)[k..][1..] == files(0)[k + 1..];
      assert files(0)[..k + 1] == files(0)[..k] + [files(0)[k]];
      assert Next(files, s, PopFront) == Taking(files, n, k + 1);
      TakingSticks(files, n, k + 1);
      StickOneStepLater(files, s, PopFront);
    } else {
      var drained := Next(files, s, DoneConsume);
      assert SticksBy(files, Next(files, drained, PopBuffer), []);
      StickOneStepLater(files, drained, PopBuffer);
      StickOneStepLater(files, s, DoneConsume);
    }
  }

  lemma {:induction false} LoadingSticks<T>(files: Files<T>, n: nat, k: nat)
    requires n > 0 && k <= |files(0)|
    ensures CanStick(files, Loading(files, n, k))
    decreases |files(0)| - k
  {
    var s := Loading(files, n, k);
    if k < |files(0)| {
      assert files(0)[..k + 1] == files(0)[..k] + [files(0)[k]];
      assert Next(files, s, Fill(0)) == Loading(files, n, k + 1);
      LoadingSticks(files, n, k + 1);
      StickOneStepLater(files, s, Fill(0));
    } else {
      var published := Next(files, s, Publish(0));
      assert files(0)[..k] == files(0) == files(0)[0..];
      assert Next(files, published, Start) == Taking(files, n, 0);
      TakingSticks(files, n, 0);
      StickOneStepLater(files, published, Start);
      StickOneStepLater(files, s, Publish(0));
    }
  }

  /** Whatever the files and however many buffers, the reader can stop for good after one file: all
      it takes is a consumer that finishes file 0 before anyone claims file 1. */
  lemma StuckIsReachable<T>(files: Files<T>, n: nat)
    requires n > 0
    ensures CanStick(files, Initial(n))
  {
    assert Next(files, Initial<T>(n), Claim(0)) == Loading(files, n, 0);
    LoadingSticks(files, n, 0);
    StickOneStepLater(files, Initial(n), Claim(0));
  }
}
