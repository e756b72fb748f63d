/** The logger (logger_t): packets are collected and handed to a pool of one in batches; each program
    counter trace goes to its own numbered file. */
module Logger {
  import opened Common
  import opened Digits
  import ThreadPool

  const PACKET_TRACE_FLUSH_THRESHOLD: nat := 1000

  /** spiketrace_filename: ten digits, or more when they are needed. */
  function SpiketraceFilename(idx: nat): string {
    "SPIKETRACE-" + Suffix(idx)
  }

  function Suffix(idx: nat): string {
    Zeros(10 - |Print(idx, Dec)|) + Print(idx, Dec)
  }

  function Zeros(n: int): (s: string)
    ensures |s| == if n < 0 then 0 else n
    decreases if n < 0 then 0 else n
  {
    if n <= 0 then "" else Zeros(n - 1) + "0"
  }

  lemma {:induction false} ReadZeros(n: int)
    ensures Read(Zeros(n), Dec) == 0
    decreases if n < 0 then 0 else n
  {
    if n > 0 {
      ReadZeros(n - 1);
      ReadSnoc(Zeros(n - 1), '0', Dec);
    }
  }

  lemma {:induction false} ReadAfterZero(zeros: string, s: string)
    requires Read(zeros, Dec) == 0
    ensures Read(zeros + s, Dec) == Read(s, Dec)
  {
    if s == [] {
      assert zeros + s == zeros;
    } else {
      var front, c := s[..|s| - 1], s[|s| - 1];
      ReadAfterZero(zeros, front);
      assert zeros + s == (zeros + front) + [c];
      ReadSnoc(zeros + front, c, Dec);
    }
  }

  /** The suffix has ten digits at least, and the number can be read back from it. */
  lemma SuffixNamesIndex(idx: nat)
    ensures |Suffix(idx)| >= 10 && (|Suffix(idx)| > 10 ==> Suffix(idx) == Print(idx, Dec))
    ensures Read(Suffix(idx), Dec) == idx
  {
    ReadZeros(10 - |Print(idx, Dec)|);
    ReadAfterZero(Zeros(10 - |Print(idx, Dec)|), Print(idx, Dec));
    ReadPrint(idx, Dec);
  }

  lemma SameTail(head: string, a: string, b: string)
    requires head + a == head + b
    ensures a == b
  {
    assert (head + a)[|head|..] == a;
    assert (head + b)[|head|..] == b;
  }

  /** So no two traces share a file. */
  lemma FilenamesDiffer(a: nat, b: nat)
    requires SpiketraceFilename(a) == SpiketraceFilename(b)
    ensures a == b
  {
    SameTail("SPIKETRACE-", Suffix(a), Suffix(b));
    SuffixNamesIndex(a);
    SuffixNamesIndex(b);
  }

  class LoggerT<P, T> {
    const outdir: string
    var traceIdx: nat
    var pctraceJobs: seq<(T, string)>   // what has been queued on pctrace_loggers_
    var packetTraces: seq<P>
    var packetJobs: seq<seq<P>>         // what has been queued on packet_loggers_
    ghost var submitted: seq<P>
    ghost var traces: seq<T>

    /** Flushed batches, then what is pending, are the submitted packets in order; trace k went to file k. */
    ghost predicate Valid()
      reads this
    {
      && submitted == Flat(packetJobs) + packetTraces
      && traceIdx == |pctraceJobs| == |traces|
      && (forall k | 0 <= k < |traces| :: pctraceJobs[k] == (traces[k], outdir + "/" + SpiketraceFilename(k)))
    }

    constructor (outdir: string)
      ensures Valid() && submitted == [] && traces == [] && this.outdir == outdir + "/traces"
    {
      this.outdir := outdir + "/traces";
      traceIdx, pctraceJobs, packetTraces, packetJobs, submitted, traces := 0, [], [], [], [], [];
    }

    method SubmitTraceToThreadpool(trace: T)
      requires Valid()
      modifies this
      ensures Valid() && traces == old(traces) + [trace] && submitted == old(submitted)
      ensures packetTraces == old(packetTraces) && packetJobs == old(packetJobs)
    {
      var name := outdir + "/" + SpiketraceFilename(traceIdx);
      traceIdx := traceIdx + 1;
      pctraceJobs := pctraceJobs + [(trace, name)];
      traces := traces + [trace];
    }

    method SubmitPacket(pkt: P)
      requires Valid()
      modifies this
      ensures Valid() && submitted == old(submitted) + [pkt] && traces == old(traces)
      ensures packetTraces == old(packetTraces) + [pkt] && packetJobs == old(packetJobs)
    {
      packetTraces := packetTraces + [pkt];
      submitted := submitted + [pkt];
      assert Flat(packetJobs) + packetTraces == old(submitted) + [pkt];
    }

    /** The size is cut to 32 bits before it is compared. */
    method SubmitPacketTraceToThreadpool()
      requires Valid()
      modifies this
      ensures Valid() && submitted == old(submitted) && traces == old(traces)
      ensures |packetTraces| % 0x1_0000_0000 < PACKET_TRACE_FLUSH_THRESHOLD
      ensures |old(packetTraces)| % 0x1_0000_0000 < PACKET_TRACE_FLUSH_THRESHOLD ==>
        packetTraces == old(packetTraces) && packetJobs == old(packetJobs)
      ensures |old(packetTraces)| % 0x1_0000_0000 >= PACKET_TRACE_FLUSH_THRESHOLD ==>
        packetTraces == [] && packetJobs == old(packetJobs) + [old(packetTraces)]
    {
      if |packetTraces| % 0x1_0000_0000 >= PACKET_TRACE_FLUSH_THRESHOLD {
        FlushPacketTraceToThreadpool();
      }
    }

    method FlushPacketTraceToThreadpool()
      requires Valid()
      modifies this
      ensures Valid() && submitted == old(submitted) && traces == old(traces)
      ensures packetTraces == [] && packetJobs == old(packetJobs) + [old(packetTraces)]
    {
      FlatPush(packetJobs, packetTraces);
      packetJobs := packetJobs + [packetTraces];
      packetTraces := [];
    }
  }

  lemma {:induction false} FlatPrefix<P>(a: seq<seq<P>>, b: seq<seq<P>>)
    requires a <= b
    ensures Flat(a) <= Flat(b)
  {
    FlatAppend(a, b[|a|..]);
    assert a + b[|a|..] == b;
  }

  /** What the packet pool of one worker has printed is always a prefix of what was submitted; and if the
      pool is stopped with no batch waiting and nothing pending, it is all of it. */
  lemma PrintedPacketsAreAPrefix<P>(submitted: seq<P>, pending: seq<P>, run: seq<ThreadPool.Action<seq<P>>>)
    requires ThreadPool.EnabledRun(ThreadPool.Start(1), run)
    requires submitted == Flat(ThreadPool.Run(ThreadPool.Start(1), run).queued) + pending
    ensures var s := ThreadPool.Run(ThreadPool.Start(1), run);
            && Flat(s.finished) <= submitted
            && (s.exited == 1 ==> submitted == Flat(s.finished) + Flat(s.waiting) + pending)
            && (s.exited == 1 && s.waiting == [] && pending == [] ==> Flat(s.finished) == submitted)
  {
    ThreadPool.OneWorkerKeepsOrder(ThreadPool.Start<seq<P>>(1), run);
    var s := ThreadPool.Run(ThreadPool.Start(1), run);
    FlatPrefix(s.finished, s.queued);
    FlatAppend(s.taken, s.waiting);
    if s.exited == 1 {
      assert |s.running| == 0;
    }
  }

  /** With two workers or more, two batches can be printed in the wrong order. */
  lemma BatchesCanBeReordered<P>(threads: nat, first: P, second: P) returns (run: seq<ThreadPool.Action<seq<P>>>)
    requires threads >= 2 && first != second
    ensures ThreadPool.EnabledRun(ThreadPool.Start(threads), run)
    ensures Flat(ThreadPool.Run(ThreadPool.Start(threads), run).queued) == [first, second]
    ensures Flat(ThreadPool.Run(ThreadPool.Start(threads), run).finished) == [second, first]
  {
    assert [first][0] != [second][0];
    run := ThreadPool.TwoWorkersCanReorder(threads, [first], [second]);
    FlatOfTwo(first, second);
    FlatOfTwo(second, first);
  }

  ghost predicate PrintsInOrder<P>(threads: nat, run: seq<ThreadPool.Action<seq<P>>>) {
    ThreadPool.EnabledRun(ThreadPool.Start(threads), run) ==>
      Flat(ThreadPool.Run(ThreadPool.Start(threads), run).finished)
      <= Flat(ThreadPool.Run(ThreadPool.Start(threads), run).queued)
  }

  /** Whatever batches are flushed, packets are printed in the order in which they were flushed. */
  ghost predicate PacketsKeepOrder<P(!new)>(threads: nat) {
    forall run: seq<ThreadPool.Action<seq<P>>> :: PrintsInOrder(threads, run)
  }

  /** The logger asks for one thread: it keeps the order of the packets exactly on machines with fewer than
      32 hardware threads. */
  lemma PacketsKeepOrderExactlyWhen<P(!new)>(hardware: nat, first: P, second: P)
    requires first != second
    ensures PacketsKeepOrder<P>(ThreadPool.NumThreads(hardware, 1)) <==> hardware < 32
  {
    var threads := ThreadPool.NumThreads(hardware, 1);
    if hardware < 32 {
      forall run: seq<ThreadPool.Action<seq<P>>> ensures PrintsInOrder(threads, run) {
        ThreadPool.SmallPoolKeepsOrder(threads, run);
        if ThreadPool.EnabledRun(ThreadPool.Start(threads), run) {
          var s := ThreadPool.Run(ThreadPool.Start(threads), run);
          FlatPrefix(s.finished, s.queued);
        }
      }
    } else {
      var run := BatchesCanBeReordered(threads, first, second);
      assert [second, first][0] != [first, second][0];
      assert !PrintsInOrder(threads, run);
    }
  }

  lemma FlatOfTwo<P>(x: P, y: P)
    ensures Flat([[x], [y]]) == [x, y]
  {
    assert [[x], [y]][..1] == [[x]] && [[x]][..0] == [];
    assert Flat([[x]]) == [x];
  }
}
