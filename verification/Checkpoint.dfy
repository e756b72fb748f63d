/** The in-place copy-on-write checkpoint of simulated DRAM (mmu_lib.cc, and the memory part of
    sim_lib.cc).

    Host memory is a field that every memcpy rewrites at an address, so pages and saved copies are
    named by host address exactly as in the source: two names of one address are one block, the
    allocator may hand out an address it handed out before, and a call may pass an address that is
    no page at all.  Every method is proved against SnapshotModel, which knows nothing of saved
    copies; `View` is the same function in both memory modes. */
module Checkpoint {
  import opened Common
  import opened SnapshotModel

  type Addr = nat

  datatype HostSlot = NoEntry | Entry(vpn: nat, host: Addr, ppn: nat, trigger: bool)

  /** The protobuf message: only the full-copy mode puts pages into it. */
  datatype Message<A> = Message(arch: A, pages: Memory)

  function SlotView(s: HostSlot): Slot {
    match s
    case NoEntry => Invalid
    case Entry(vpn, _, ppn, trigger) => Slot(vpn, ppn, trigger)
  }

  function TlbView(tlb: seq<HostSlot>): (t: Tlb)
    ensures |t| == |tlb|
    ensures forall k | 0 <= k < |tlb| :: t[k] == SlotView(tlb[k])
  {
    seq(|tlb|, k requires 0 <= k < |tlb| => SlotView(tlb[k]))
  }

  function TlbViews(tlbs: seq<seq<HostSlot>>): (ts: seq<Tlb>)
    ensures |ts| == |tlbs|
    ensures forall i | 0 <= i < |tlbs| :: ts[i] == TlbView(tlbs[i])
  {
    seq(|tlbs|, i requires 0 <= i < |tlbs| => TlbView(tlbs[i]))
  }

  /** The logical memory: what each live page holds. */
  function PageContents(spm: map<nat, Addr>, host: map<Addr, seq<byte>>): Memory {
    map p | p in spm && spm[p] in host :: host[spm[p]]
  }

  /** What was saved of each live page that has a saved copy. */
  function SavedContents(spm: map<nat, Addr>, mmCkpt: map<Addr, Addr>, host: map<Addr, seq<byte>>): Memory {
    map p | p in spm && spm[p] in mmCkpt && mmCkpt[spm[p]] in host :: host[mmCkpt[spm[p]]]
  }

  /** What the in-place restore computes from the live pages, the page numbers recorded at the
      snapshot, and the saved copies. */
  function InPlaceRestore(mem: Memory, recorded: set<nat>, saved: Memory): Memory {
    map p | p in mem && p in recorded :: if p in saved then saved[p] else mem[p]
  }

  /** Why the snapshot `goal` can be rebuilt: every recorded page is still live, a saved page was
      saved as it was, and while the snapshot is armed an unsaved page has not been written. */
  ghost predicate Recoverable(mem: Memory, recorded: set<nat>, saved: Memory, goal: Memory, armed: bool) {
    && recorded == goal.Keys
    && recorded <= mem.Keys
    && (forall p | p in recorded && p in saved :: saved[p] == goal[p])
    && (armed ==> forall p | p in recorded && p !in saved :: mem[p] == goal[p])
  }

  ghost predicate Within(a: Memory, b: Memory) {
    forall p | p in a :: p in b && a[p] == b[p]
  }

  lemma WithinTransitive(a: Memory, b: Memory, c: Memory)
    requires Within(a, b) && Within(b, c)
    ensures Within(a, c)
  {
  }

  lemma RecoverableIsEnough(mem: Memory, recorded: set<nat>, saved: Memory, goal: Memory)
    requires Recoverable(mem, recorded, saved, goal, true)
    ensures InPlaceRestore(mem, recorded, saved) == goal
  {
    assert InPlaceRestore(mem, recorded, saved).Keys == goal.Keys;
  }

  /** After the one restore that a snapshot is good for, stores are no longer tracked.  A further
      restore is right exactly when no unsaved page of the snapshot differs from it. */
  lemma SecondRestoreIsExactWhen(mem: Memory, recorded: set<nat>, saved: Memory, goal: Memory)
    requires Recoverable(mem, recorded, saved, goal, false)
    ensures InPlaceRestore(mem, recorded, saved) == goal
       <==> forall p | p in goal && p !in saved :: mem[p] == goal[p]
  {
    var r := InPlaceRestore(mem, recorded, saved);
    assert r.Keys == goal.Keys;
    if r == goal {
      forall p | p in goal && p !in saved ensures mem[p] == goal[p] {
        assert r[p] == mem[p];
      }
    }
  }

  /** What a host block is for. */
  datatype Role = PageOf(ppn: nat) | Pooled(index: nat) | CopyOf(block: Addr)

  ghost predicate Fits(a: Addr, role: Role, spm: map<nat, Addr>, pool: seq<Addr>, mmCkpt: map<Addr, Addr>) {
    match role
    case PageOf(p) => p in spm && spm[p] == a
    case Pooled(i) => i < |pool| && pool[i] == a
    case CopyOf(k) => k in mmCkpt && mmCkpt[k] == a
  }

  /** No block is used twice and none is lost: each is one page, or one pooled buffer, or the saved
      copy of one block. */
  ghost predicate Accounted(
    roles: map<Addr, Role>, spm: map<nat, Addr>, pool: seq<Addr>, mmCkpt: map<Addr, Addr>)
  {
    && (forall p | p in spm :: spm[p] in roles && roles[spm[p]] == PageOf(p))
    && (forall i | 0 <= i < |pool| :: pool[i] in roles && roles[pool[i]] == Pooled(i))
    && (forall k | k in mmCkpt :: mmCkpt[k] in roles && roles[mmCkpt[k]] == CopyOf(k))
    && (forall a | a in roles :: Fits(a, roles[a], spm, pool, mmCkpt))
  }

  /** The simulator's memory side. */
  datatype Sim<A> = Sim(
    serializeMem: bool,
    dramPages: nat,
    host: map<Addr, seq<byte>>,     // every block the host allocator has out
    arch: A,
    tlbs: seq<seq<HostSlot>>,       // the store TLB of each core's MMU, then that of debug_mmu
    spm: map<nat, Addr>,            // the sparse memory map
    ckptPpn: set<nat>,
    ckptMempool: seq<Addr>,
    mmCkpt: map<Addr, Addr>,
    serializeCalled: bool)
  {
    function Contents(): Memory { PageContents(spm, host) }
    function Saved(): Memory { SavedContents(spm, mmCkpt, host) }
    predicate InPlace() { !serializeMem && serializeCalled }
  }

  /** Bookkeeping for the proof only. */
  datatype Ledger<A> = Ledger(
    roles: map<Addr, Role>,
    snap: Snapshot<A>,
    message: Message<A>,            // what the last Serialize produced
    epochs: seq<nat>,               // how many pages each finished epoch saved
    peak: nat)                      // the most that any epoch did, the current one included

  ghost predicate HostOk<A>(s: Sim<A>, g: Ledger<A>) {
    && (forall a | a in s.host :: |s.host[a]| == PGSIZE && a in g.roles)
    && (forall a | a in g.roles :: a in s.host)
    && Accounted(g.roles, s.spm, s.ckptMempool, s.mmCkpt)
    // there are exactly as many checkpoint buffers as the busiest epoch needed
    && |s.mmCkpt| + |s.ckptMempool| == g.peak
  }

  /** `peak` is the maximum over the epochs, the current one having saved `saved` pages so far. */
  ghost predicate IsPeak<A>(g: Ledger<A>, saved: nat) {
    && saved <= g.peak && (forall n <- g.epochs :: n <= g.peak)
    && (g.peak == saved || g.peak in g.epochs)
  }

  ghost predicate PeakOk<A>(s: Sim<A>, g: Ledger<A>) {
    IsPeak(g, |s.mmCkpt|)
  }

  /** Conservation, spelled out: pages, pooled buffers and saved copies are pairwise different
      blocks, together they are every block there is, and as many buffers exist as the epoch with
      the most saved pages needed, be it a finished one or the current one. */
  lemma BuffersAreConserved<A>(s: Sim<A>, g: Ledger<A>)
    requires HostOk(s, g) && PeakOk(s, g)
    ensures forall i, j | 0 <= i < j < |s.ckptMempool| :: s.ckptMempool[i] != s.ckptMempool[j]
    ensures forall k, l | k in s.mmCkpt && l in s.mmCkpt && k != l :: s.mmCkpt[k] != s.mmCkpt[l]
    ensures forall p, q | p in s.spm && q in s.spm && p != q :: s.spm[p] != s.spm[q]
    ensures forall k | k in s.mmCkpt :: s.mmCkpt[k] !in s.ckptMempool
    ensures forall p | p in s.spm :: s.spm[p] !in s.ckptMempool && forall k | k in s.mmCkpt :: s.mmCkpt[k] != s.spm[p]
    ensures forall a | a in s.host :: a in s.spm.Values || a in s.ckptMempool || a in s.mmCkpt.Values
    ensures forall n <- g.epochs + [|s.mmCkpt|] :: n <= |s.mmCkpt| + |s.ckptMempool|
    ensures |s.mmCkpt| + |s.ckptMempool| in g.epochs + [|s.mmCkpt|]
  {
    forall a | a in s.host ensures a in s.spm.Values || a in s.ckptMempool || a in s.mmCkpt.Values {
      assert Fits(a, g.roles[a], s.spm, s.ckptMempool, s.mmCkpt);
    }
    forall i, j | 0 <= i < j < |s.ckptMempool| ensures s.ckptMempool[i] != s.ckptMempool[j] {
      assert g.roles[s.ckptMempool[i]] == Pooled(i) && g.roles[s.ckptMempool[j]] == Pooled(j);
    }
  }

  ghost predicate SlotOk<A>(s: Sim<A>, e: HostSlot) {
    e.Entry? ==>
      && e.ppn in s.spm && e.host == s.spm[e.ppn]
      // the page behind a cached store translation has already been saved
      && (s.InPlace() ==> e.host in s.mmCkpt)
  }

  ghost predicate TlbsOk<A>(s: Sim<A>) {
    && (forall i | 0 <= i < |s.tlbs| :: |s.tlbs[i]| == TLB_ENTRIES)
    && (forall i, k | 0 <= i < |s.tlbs| && 0 <= k < TLB_ENTRIES :: SlotOk(s, s.tlbs[i][k]))
  }

  /** The reason why a store that hits may skip the slow path: while the in-place mode tracks, the page
      behind every valid entry of every MMU has a saved copy, whatever address it was reached by. */
  lemma EntriesNameSavedPages<A>(s: Sim<A>, g: Ledger<A>, cpu: nat, index: nat)
    requires Ok(s, g) && cpu < |s.tlbs| && index < TLB_ENTRIES && s.tlbs[cpu][index].Entry?
    ensures var e := s.tlbs[cpu][index];
            && e.ppn in s.spm && e.host == s.spm[e.ppn]
            && (s.InPlace() ==> e.host in s.mmCkpt && e.ppn in s.Saved())
  {
    assert SlotOk(s, s.tlbs[cpu][index]);
  }

  ghost predicate EpochOk<A>(s: Sim<A>, g: Ledger<A>) {
    && (forall p | p in g.snap.mem :: |g.snap.mem[p]| == PGSIZE)
    && (s.serializeCalled ==>
          g.message == Message(g.snap.arch, if s.serializeMem then g.snap.mem else map[]))
    && (!s.serializeMem ==> Recoverable(s.Contents(), s.ckptPpn, s.Saved(), g.snap.mem, s.serializeCalled))
  }

  ghost predicate Ok<A>(s: Sim<A>, g: Ledger<A>) {
    HostOk(s, g) && TlbsOk(s) && EpochOk(s, g) && PeakOk(s, g)
  }

  ghost function ViewOf<A>(s: Sim<A>, g: Ledger<A>): Machine<A> {
    Machine(s.Contents(), TlbViews(s.tlbs), s.arch, g.snap, s.serializeCalled, s.dramPages)
  }

  lemma ViewWellFormed<A>(s: Sim<A>, g: Ledger<A>)
    requires Ok(s, g)
    ensures WellFormed(ViewOf(s, g)) && SnapshotOk(ViewOf(s, g))
  {
    var v := ViewOf(s, g);
    forall i | 0 <= i < |v.tlbs| ensures TlbWellFormed(v.mem, v.tlbs[i]) {
      forall k | 0 <= k < TLB_ENTRIES && v.tlbs[i][k].Slot? ensures v.tlbs[i][k].ppn in v.mem {
        assert SlotOk(s, s.tlbs[i][k]);
      }
    }
  }

  /** A buffer fit for the next save: the last one of the pool, or with an empty pool any address
      the allocator may return. */
  ghost predicate Usable<A>(s: Sim<A>, buf: Addr) {
    if s.ckptMempool == [] then buf !in s.host else buf == s.ckptMempool[|s.ckptMempool| - 1]
  }

  function AfterSave<A>(s: Sim<A>, block: Addr, buf: Addr, there: seq<byte>): Sim<A> {
    s.(ckptMempool := if s.ckptMempool == [] then [] else s.ckptMempool[..|s.ckptMempool| - 1],
       mmCkpt := s.mmCkpt[block := buf],
       host := s.host[buf := there])
  }

  ghost function LedgerAfterSave<A>(s: Sim<A>, g: Ledger<A>, block: Addr, buf: Addr): Ledger<A> {
    g.(roles := g.roles[buf := CopyOf(block)], peak := if s.ckptMempool == [] then g.peak + 1 else g.peak)
  }

  lemma RecycledBuffer(roles: map<Addr, Role>, spm: map<nat, Addr>, pool: seq<Addr>,
                       mmCkpt: map<Addr, Addr>, block: Addr)
    requires Accounted(roles, spm, pool, mmCkpt) && block !in mmCkpt && pool != []
    ensures var buf := pool[|pool| - 1];
            Accounted(roles[buf := CopyOf(block)], spm, pool[..|pool| - 1], mmCkpt[block := buf])
  {
  }

  lemma FreshBuffer(roles: map<Addr, Role>, spm: map<nat, Addr>,
                    mmCkpt: map<Addr, Addr>, block: Addr, buf: Addr)
    requires Accounted(roles, spm, [], mmCkpt) && block !in mmCkpt && buf !in roles
    ensures Accounted(roles[buf := CopyOf(block)], spm, [], mmCkpt[block := buf])
  {
  }

  lemma SaveKeepsHost<A>(s: Sim<A>, g: Ledger<A>, block: Addr, buf: Addr, there: seq<byte>)
    requires HostOk(s, g) && block !in s.mmCkpt && |there| == PGSIZE && Usable(s, buf)
    ensures HostOk(AfterSave(s, block, buf, there), LedgerAfterSave(s, g, block, buf))
  {
    if s.ckptMempool == [] {
      FreshBuffer(g.roles, s.spm, s.mmCkpt, block, buf);
    } else {
      RecycledBuffer(g.roles, s.spm, s.ckptMempool, s.mmCkpt, block);
    }
  }

  /** A usable buffer is neither a page nor a saved copy. */
  lemma UsableIsFree<A>(s: Sim<A>, g: Ledger<A>, buf: Addr)
    requires HostOk(s, g) && Usable(s, buf)
    ensures forall p | p in s.spm :: s.spm[p] != buf
    ensures forall k | k in s.mmCkpt :: s.mmCkpt[k] != buf
  {
    if s.ckptMempool != [] {
      assert g.roles[buf] == Pooled(|s.ckptMempool| - 1);
    }
  }

  /** Writing a copy of `block` into a buffer leaves the pages alone and saves what was there. */
  lemma SaveKeepsPages<A>(s: Sim<A>, g: Ledger<A>, block: Addr, buf: Addr, there: seq<byte>)
    requires HostOk(s, g) && block !in s.mmCkpt && (block in s.host ==> there == s.host[block]) && Usable(s, buf)
    ensures var t := AfterSave(s, block, buf, there);
            && t.Contents() == s.Contents()
            && (forall p | p in t.Saved() && p !in s.Saved() :: p in s.Contents() && t.Saved()[p] == s.Contents()[p])
            && (forall p | p in s.Saved() :: p in t.Saved() && t.Saved()[p] == s.Saved()[p])
  {
    UsableIsFree(s, g, buf);
  }

  lemma SaveKeepsEpoch<A>(s: Sim<A>, g: Ledger<A>, t: Sim<A>, h: Ledger<A>)
    requires EpochOk(s, g) && s.InPlace()
    requires t.Contents() == s.Contents()
    requires forall p | p in t.Saved() && p !in s.Saved() :: p in s.Contents() && t.Saved()[p] == s.Contents()[p]
    requires forall p | p in s.Saved() :: p in t.Saved() && t.Saved()[p] == s.Saved()[p]
    requires t.InPlace() && t.ckptPpn == s.ckptPpn && h.snap == g.snap && h.message == g.message
    ensures EpochOk(t, h)
  {
  }

  lemma SaveKeepsTlbs<A>(s: Sim<A>, t: Sim<A>)
    requires TlbsOk(s) && t.tlbs == s.tlbs && t.spm == s.spm && t.InPlace() == s.InPlace()
    requires s.mmCkpt.Keys <= t.mmCkpt.Keys
    ensures TlbsOk(t)
  {
    forall i, k | 0 <= i < |t.tlbs| && 0 <= k < TLB_ENTRIES ensures SlotOk(t, t.tlbs[i][k]) {
      assert SlotOk(s, s.tlbs[i][k]);
    }
  }

  lemma SaveCounts<A>(s: Sim<A>, g: Ledger<A>, block: Addr, buf: Addr, there: seq<byte>)
    requires |s.mmCkpt| + |s.ckptMempool| == g.peak && block !in s.mmCkpt
    ensures var t, h := AfterSave(s, block, buf, there), LedgerAfterSave(s, g, block, buf);
            && t.mmCkpt.Keys == s.mmCkpt.Keys + {block}
            && h.peak == if |t.mmCkpt| > g.peak then |t.mmCkpt| else g.peak
  {
    AddCounts(s.mmCkpt, block, buf);
  }

  lemma AddCounts<K, V>(m: map<K, V>, k: K, v: V)
    requires k !in m
    ensures |m[k := v]| == |m| + 1 && m[k := v].Keys == m.Keys + {k}
  {
  }

  lemma SaveKeepsPeak<A>(s: Sim<A>, g: Ledger<A>, block: Addr, buf: Addr, there: seq<byte>)
    requires PeakOk(s, g) && |s.mmCkpt| + |s.ckptMempool| == g.peak && block !in s.mmCkpt
    ensures PeakOk(AfterSave(s, block, buf, there), LedgerAfterSave(s, g, block, buf))
  {
    SaveCounts(s, g, block, buf, there);
    AddCounts(s.mmCkpt, block, buf);
  }

  lemma SaveKeepsOk<A>(s: Sim<A>, g: Ledger<A>, block: Addr, buf: Addr, there: seq<byte>)
    requires Ok(s, g) && s.InPlace() && block !in s.mmCkpt && Usable(s, buf)
    requires |there| == PGSIZE && (block in s.host ==> there == s.host[block])
    ensures var t, h := AfterSave(s, block, buf, there), LedgerAfterSave(s, g, block, buf);
            Ok(t, h) && ViewOf(t, h) == ViewOf(s, g)
  {
    var t, h := AfterSave(s, block, buf, there), LedgerAfterSave(s, g, block, buf);
    SaveKeepsHost(s, g, block, buf, there);
    SaveKeepsPages(s, g, block, buf, there);
    SaveKeepsEpoch(s, g, t, h);
    SaveKeepsTlbs(s, t);
    SaveKeepsPeak(s, g, block, buf, there);
  }

  function AfterAllocate<A>(s: Sim<A>, ppn: nat, a: Addr, contents: seq<byte>): Sim<A> {
    s.(host := s.host[a := contents], spm := s.spm[ppn := a])
  }

  lemma AllocateKeepsAccounts(roles: map<Addr, Role>, spm: map<nat, Addr>, pool: seq<Addr>,
                              mmCkpt: map<Addr, Addr>, p: nat, a: Addr)
    requires Accounted(roles, spm, pool, mmCkpt) && p !in spm && a !in roles
    ensures Accounted(roles[a := PageOf(p)], spm[p := a], pool, mmCkpt)
  {
  }

  lemma AllocateKeepsHost<A>(s: Sim<A>, g: Ledger<A>, ppn: nat, a: Addr, contents: seq<byte>)
    requires HostOk(s, g) && ppn !in s.spm && a !in s.host && |contents| == PGSIZE
    ensures HostOk(AfterAllocate(s, ppn, a, contents), g.(roles := g.roles[a := PageOf(ppn)]))
  {
    AllocateKeepsAccounts(g.roles, s.spm, s.ckptMempool, s.mmCkpt, ppn, a);
  }

  lemma AllocateAddsPage<A>(s: Sim<A>, g: Ledger<A>, ppn: nat, a: Addr, contents: seq<byte>)
    requires HostOk(s, g) && ppn !in s.spm && a !in s.host
    ensures AfterAllocate(s, ppn, a, contents).Contents() == s.Contents()[ppn := contents]
  {
  }

  lemma AllocateKeepsSaved<A>(s: Sim<A>, g: Ledger<A>, ppn: nat, a: Addr, contents: seq<byte>)
    requires HostOk(s, g) && ppn !in s.spm && a !in s.host
    ensures var t := AfterAllocate(s, ppn, a, contents);
            && (forall p | p in s.spm :: p in t.Saved() <==> p in s.Saved())
            && (forall p | p in s.Saved() :: t.Saved()[p] == s.Saved()[p])
  {
  }

  lemma AllocateKeepsTlbs<A>(s: Sim<A>, ppn: nat, a: Addr, contents: seq<byte>)
    requires TlbsOk(s) && ppn !in s.spm
    ensures TlbsOk(AfterAllocate(s, ppn, a, contents))
  {
    var t := AfterAllocate(s, ppn, a, contents);
    forall i, k | 0 <= i < |t.tlbs| && 0 <= k < TLB_ENTRIES ensures SlotOk(t, t.tlbs[i][k]) {
      assert SlotOk(s, s.tlbs[i][k]);
    }
  }

  lemma AllocateKeepsEpoch<A>(s: Sim<A>, g: Ledger<A>, t: Sim<A>, h: Ledger<A>, ppn: nat)
    requires EpochOk(s, g) && ppn !in s.Contents()
    requires t.Contents() == s.Contents()[ppn := ZeroPage()]
    requires forall p | p in s.Contents() ::
      (p in t.Saved() <==> p in s.Saved()) && (p in s.Saved() ==> t.Saved()[p] == s.Saved()[p])
    requires t.serializeMem == s.serializeMem && t.serializeCalled == s.serializeCalled && t.ckptPpn == s.ckptPpn
    requires h.snap == g.snap && h.message == g.message
    ensures EpochOk(t, h)
  {
  }

  lemma AllocateKeepsOk<A>(s: Sim<A>, g: Ledger<A>, ppn: nat, a: Addr)
    requires Ok(s, g) && ppn !in s.spm && a !in s.host
    ensures var t, h := AfterAllocate(s, ppn, a, ZeroPage()), g.(roles := g.roles[a := PageOf(ppn)]);
            Ok(t, h) && ViewOf(t, h) == ViewOf(s, g).(mem := Touch(s.Contents(), ppn))
  {
    var t, h := AfterAllocate(s, ppn, a, ZeroPage()), g.(roles := g.roles[a := PageOf(ppn)]);
    AllocateKeepsHost(s, g, ppn, a, ZeroPage());
    AllocateAddsPage(s, g, ppn, a, ZeroPage());
    AllocateKeepsSaved(s, g, ppn, a, ZeroPage());
    AllocateKeepsTlbs(s, ppn, a, ZeroPage());
    AllocateKeepsEpoch(s, g, t, h, ppn);
  }

  function AfterWrite<A>(s: Sim<A>, a: Addr, off: nat, bytes: seq<byte>): Sim<A>
    requires a in s.host && off + |bytes| <= |s.host[a]|
  {
    s.(host := s.host[a := Overlay(s.host[a], off, bytes)])
  }

  lemma WriteChangesPage<A>(s: Sim<A>, g: Ledger<A>, ppn: nat, off: nat, bytes: seq<byte>)
    requires HostOk(s, g) && ppn in s.spm && off + |bytes| <= PGSIZE
    ensures AfterWrite(s, s.spm[ppn], off, bytes).Contents()
         == s.Contents()[ppn := Overlay(s.Contents()[ppn], off, bytes)]
  {
  }

  lemma WriteKeepsSaved<A>(s: Sim<A>, g: Ledger<A>, ppn: nat, off: nat, bytes: seq<byte>)
    requires HostOk(s, g) && ppn in s.spm && off + |bytes| <= PGSIZE
    ensures AfterWrite(s, s.spm[ppn], off, bytes).Saved() == s.Saved()
  {
  }

  /** A page that has been saved may be written: no saved copy lies in it. */
  lemma WriteKeepsOk<A>(s: Sim<A>, g: Ledger<A>, ppn: nat, off: nat, bytes: seq<byte>)
    requires Ok(s, g) && ppn in s.spm && off + |bytes| <= PGSIZE
    requires s.InPlace() ==> s.spm[ppn] in s.mmCkpt
    ensures var t := AfterWrite(s, s.spm[ppn], off, bytes);
            && Ok(t, g)
            && ViewOf(t, g) == ViewOf(s, g).(mem := s.Contents()[ppn := Overlay(s.Contents()[ppn], off, bytes)])
  {
    WriteChangesPage(s, g, ppn, off, bytes);
    WriteKeepsSaved(s, g, ppn, off, bytes);
    SaveKeepsTlbs(s, AfterWrite(s, s.spm[ppn], off, bytes));
  }

  function AfterRefill<A>(s: Sim<A>, cpu: nat, index: nat, e: HostSlot): Sim<A>
    requires cpu < |s.tlbs| && index < |s.tlbs[cpu]|
  {
    s.(tlbs := s.tlbs[cpu := s.tlbs[cpu][index := e]])
  }

  lemma RefillKeepsOk<A>(s: Sim<A>, g: Ledger<A>, cpu: nat, index: nat, e: HostSlot)
    requires Ok(s, g) && cpu < |s.tlbs| && index < TLB_ENTRIES && SlotOk(s, e)
    ensures var t := AfterRefill(s, cpu, index, e);
            && Ok(t, g)
            && ViewOf(t, g) == ViewOf(s, g).(
                 tlbs := TlbViews(s.tlbs)[cpu := TlbViews(s.tlbs)[cpu][index := SlotView(e)]])
  {
    var t := AfterRefill(s, cpu, index, e);
    forall i, k | 0 <= i < |t.tlbs| && 0 <= k < TLB_ENTRIES ensures SlotOk(t, t.tlbs[i][k]) {
      assert SlotOk(s, s.tlbs[i][k]);
      assert SlotOk(t, e);
    }
    var v := TlbViews(s.tlbs)[cpu := TlbViews(s.tlbs)[cpu][index := SlotView(e)]];
    forall i | 0 <= i < |t.tlbs| ensures TlbViews(t.tlbs)[i] == v[i] {
      assert TlbViews(t.tlbs)[i] == TlbView(t.tlbs[i]) == v[i];
    }
    assert TlbViews(t.tlbs) == v;
  }

  function NoTlbs(n: nat): (tlbs: seq<seq<HostSlot>>)
    ensures |tlbs| == n
    ensures forall i | 0 <= i < n :: |tlbs[i]| == TLB_ENTRIES
    ensures forall i, k | 0 <= i < n && 0 <= k < TLB_ENTRIES :: tlbs[i][k] == NoEntry
  {
    seq(n, _ => seq(TLB_ENTRIES, _ => NoEntry))
  }

  lemma NoTlbsView(n: nat, tlbs: seq<Tlb>)
    requires |tlbs| == n
    ensures TlbViews(NoTlbs(n)) == FlushAll(tlbs)
  {
    forall i | 0 <= i < n ensures TlbViews(NoTlbs(n))[i] == FlushAll(tlbs)[i] {
      assert TlbView(NoTlbs(n)[i]) == EmptyTlb();
    }
  }

  lemma ReturnKeepsAccounts(roles: map<Addr, Role>, spm: map<nat, Addr>, pool: seq<Addr>,
                            mmCkpt: map<Addr, Addr>, k: Addr)
    requires Accounted(roles, spm, pool, mmCkpt) && k in mmCkpt
    ensures Accounted(roles[mmCkpt[k] := Pooled(|pool|)], spm, pool + [mmCkpt[k]], mmCkpt - {k})
  {
  }

  lemma RemoveCounts<K, V>(m: map<K, V>, k: K)
    requires k in m
    ensures |m - {k}| == |m| - 1
  {
    assert (m - {k}).Keys == m.Keys - {k};
  }

  lemma ReturnToPool<A>(s: Sim<A>, g: Ledger<A>, k: Addr)
    requires HostOk(s, g) && k in s.mmCkpt
    ensures HostOk(s.(ckptMempool := s.ckptMempool + [s.mmCkpt[k]], mmCkpt := s.mmCkpt - {k}),
                   g.(roles := g.roles[s.mmCkpt[k] := Pooled(|s.ckptMempool|)]))
  {
    ReturnKeepsAccounts(g.roles, s.spm, s.ckptMempool, s.mmCkpt, k);
    RemoveCounts(s.mmCkpt, k);
  }

  /** free(spm[p]); spm.erase(p) */
  function AfterFree<A>(s: Sim<A>, p: nat): Sim<A>
    requires p in s.spm
  {
    s.(host := s.host - {s.spm[p]}, spm := s.spm - {p})
  }

  lemma FreeKeepsAccounts(roles: map<Addr, Role>, spm: map<nat, Addr>, pool: seq<Addr>,
                          mmCkpt: map<Addr, Addr>, p: nat)
    requires Accounted(roles, spm, pool, mmCkpt) && p in spm
    ensures Accounted(roles - {spm[p]}, spm - {p}, pool, mmCkpt)
  {
  }

  lemma FreeKeepsHost<A>(s: Sim<A>, g: Ledger<A>, p: nat)
    requires HostOk(s, g) && p in s.spm
    ensures HostOk(AfterFree(s, p), g.(roles := g.roles - {s.spm[p]}))
  {
    FreeKeepsAccounts(g.roles, s.spm, s.ckptMempool, s.mmCkpt, p);
  }

  lemma OtherBlocksDiffer<A>(s: Sim<A>, g: Ledger<A>, p: nat)
    requires HostOk(s, g) && p in s.spm
    ensures forall q | q in s.spm && q != p :: s.spm[q] != s.spm[p] && s.spm[q] in s.host
    ensures forall k | k in s.mmCkpt :: s.mmCkpt[k] != s.spm[p] && s.mmCkpt[k] in s.host
  {
    forall q | q in s.spm && q != p ensures s.spm[q] != s.spm[p] && s.spm[q] in s.host {
      assert g.roles[s.spm[q]] == PageOf(q) && g.roles[s.spm[p]] == PageOf(p);
    }
    forall k | k in s.mmCkpt ensures s.mmCkpt[k] != s.spm[p] && s.mmCkpt[k] in s.host {
      assert g.roles[s.mmCkpt[k]] == CopyOf(k);
    }
  }

  lemma FreeDropsPage<A>(s: Sim<A>, g: Ledger<A>, p: nat)
    requires HostOk(s, g) && p in s.spm
    ensures AfterFree(s, p).Contents() == s.Contents() - {p}
  {
    OtherBlocksDiffer(s, g, p);
    ContentsWithout(s.spm, s.host, p);
  }

  lemma ContentsWithout(spm: map<nat, Addr>, host: map<Addr, seq<byte>>, p: nat)
    requires p in spm && forall q | q in spm && q != p :: spm[q] != spm[p]
    ensures PageContents(spm - {p}, host - {spm[p]}) == PageContents(spm, host) - {p}
  {
    var a, b := PageContents(spm - {p}, host - {spm[p]}), PageContents(spm, host) - {p};
    forall q ensures q in a <==> q in b {
      assert q in a <==> q != p && q in spm && spm[q] in host && spm[q] != spm[p];
    }
  }

  lemma FreeKeepsSaved<A>(s: Sim<A>, g: Ledger<A>, p: nat)
    requires HostOk(s, g) && p in s.spm
    ensures Within(AfterFree(s, p).Saved(), s.Saved())
  {
  }

  lemma FreeOne<A>(s: Sim<A>, g: Ledger<A>, p: nat)
    requires HostOk(s, g) && p in s.spm
    ensures var t := AfterFree(s, p);
            && HostOk(t, g.(roles := g.roles - {s.spm[p]}))
            && t.Contents() == s.Contents() - {p}
            && Within(t.Saved(), s.Saved())
  {
    FreeKeepsHost(s, g, p);
    FreeDropsPage(s, g, p);
    FreeKeepsSaved(s, g, p);
  }

  /** memcpy of a saved copy over its page. */
  function AfterCopyBack<A>(s: Sim<A>, p: nat): Sim<A>
    requires p in s.Saved()
  {
    s.(host := s.host[s.spm[p] := s.host[s.mmCkpt[s.spm[p]]]])
  }

  lemma CopyBackKeepsHost<A>(s: Sim<A>, g: Ledger<A>, p: nat)
    requires HostOk(s, g) && p in s.Saved()
    ensures HostOk(AfterCopyBack(s, p), g)
    ensures AfterCopyBack(s, p).Contents() == s.Contents()[p := s.Saved()[p]]
    ensures AfterCopyBack(s, p).Saved() == s.Saved()
  {
  }

  ghost predicate Listing(ps: seq<nat>, s: set<nat>) {
    && (forall p :: p in ps <==> p in s)
    && (forall i, j | 0 <= i < j < |ps| :: ps[i] != ps[j])
  }

  /** The iteration order of a map, whatever it is. */
  method List(s: set<nat>) returns (ps: seq<nat>)
    ensures Listing(ps, s)
  {
    ps := [];
    var rest := s;
    while rest != {}
      invariant forall p :: p in s <==> p in ps || p in rest
      invariant forall p :: p in ps ==> p !in rest
      invariant forall i, j | 0 <= i < j < |ps| :: ps[i] != ps[j]
      decreases |rest|
    {
      var p :| p in rest;
      ps, rest := ps + [p], rest - {p};
    }
  }

  /** What the copy loop makes of `mem` when it visits `rest`. */
  ghost function CopiedBack(mem: Memory, saved: Memory, recorded: set<nat>, rest: seq<nat>): Memory
    decreases |rest|
  {
    if rest == [] then mem
    else
      var p := rest[0];
      CopiedBack(if p in recorded && p in saved then mem[p := saved[p]] else mem, saved, recorded, rest[1..])
  }

  /** The pages the copy loop collects for freeing. */
  function Collected(recorded: set<nat>, rest: seq<nat>): seq<nat> {
    if rest == [] then []
    else (if rest[0] in recorded then [] else [rest[0]]) + Collected(recorded, rest[1..])
  }

  /** What the free loop leaves. */
  function Without(mem: Memory, gone: seq<nat>): Memory {
    if gone == [] then mem else Without(mem - {gone[0]}, gone[1..])
  }

  lemma {:induction false} CopiedBackAt(mem: Memory, saved: Memory, recorded: set<nat>, rest: seq<nat>, p: nat)
    requires forall q | q in rest :: q in mem
    ensures var m := CopiedBack(mem, saved, recorded, rest);
            && (p in m <==> p in mem)
            && (p in mem ==> m[p] == if p in rest && p in recorded && p in saved then saved[p] else mem[p])
    decreases |rest|
  {
    if rest != [] {
      var q := rest[0];
      assert rest == [q] + rest[1..];
      CopiedBackAt(if q in recorded && q in saved then mem[q := saved[q]] else mem, saved, recorded, rest[1..], p);
    }
  }

  lemma {:induction false} WithoutAt(mem: Memory, gone: seq<nat>, p: nat)
    ensures p in Without(mem, gone) <==> p in mem && p !in gone
    ensures p in Without(mem, gone) ==> Without(mem, gone)[p] == mem[p]
    decreases |gone|
  {
    if gone != [] {
      assert gone == [gone[0]] + gone[1..];
      WithoutAt(mem - {gone[0]}, gone[1..], p);
    }
  }

  lemma {:induction false} CollectedAre(recorded: set<nat>, rest: seq<nat>)
    requires forall i, j | 0 <= i < j < |rest| :: rest[i] != rest[j]
    ensures var c := Collected(recorded, rest);
            && (forall p :: p in c <==> p in rest && p !in recorded)
            && (forall i, j | 0 <= i < j < |c| :: c[i] != c[j])
    decreases |rest|
  {
    if rest != [] {
      assert rest == [rest[0]] + rest[1..];
      CollectedAre(recorded, rest[1..]);
    }
  }

  /** What the loop that loads the message's pages makes of `mem`. */
  ghost function Loaded(mem: Memory, pages: Memory, rest: seq<nat>): Memory
    decreases |rest|
  {
    if rest == [] then mem
    else Loaded(if rest[0] in pages then mem[rest[0] := pages[rest[0]]] else mem, pages, rest[1..])
  }

  lemma {:induction false} LoadedAt(mem: Memory, pages: Memory, rest: seq<nat>, p: nat)
    ensures var m := Loaded(mem, pages, rest);
            && (p in m <==> p in mem || (p in rest && p in pages))
            && (p in m ==> m[p] == if p in rest && p in pages then pages[p] else mem[p])
    decreases |rest|
  {
    if rest != [] {
      assert rest == [rest[0]] + rest[1..];
      LoadedAt(if rest[0] in pages then mem[rest[0] := pages[rest[0]]] else mem, pages, rest[1..], p);
    }
  }

  lemma LoadedAll(pages: Memory, order: seq<nat>)
    requires Listing(order, pages.Keys)
    ensures Loaded(map[], pages, order) == pages
  {
    forall p ensures (p in Loaded(map[], pages, order) <==> p in pages)
                  && (p in pages ==> Loaded(map[], pages, order)[p] == pages[p]) {
      LoadedAt(map[], pages, order, p);
    }
  }

  lemma WithoutAll(mem: Memory, gone: seq<nat>)
    requires forall p | p in mem :: p in gone
    ensures Without(mem, gone) == map[]
  {
    forall p ensures p !in Without(mem, gone) {
      WithoutAt(mem, gone, p);
    }
  }

  /** The two loops of the in-place restore together compute InPlaceRestore. */
  lemma CopyThenFree(mem: Memory, saved: Memory, recorded: set<nat>, visited: seq<nat>)
    requires Listing(visited, mem.Keys)
    ensures Without(CopiedBack(mem, saved, recorded, visited), Collected(recorded, visited))
         == InPlaceRestore(mem, recorded, saved)
  {
    var m := CopiedBack(mem, saved, recorded, visited);
    var c := Collected(recorded, visited);
    CollectedAre(recorded, visited);
    var r, goal := Without(m, c), InPlaceRestore(mem, recorded, saved);
    forall p ensures (p in r <==> p in goal) && (p in r ==> r[p] == goal[p]) {
      CopiedBackAt(mem, saved, recorded, visited, p);
      WithoutAt(m, c, p);
    }
    assert r == goal;
  }

  /** With nothing saved yet and every live page recorded, the snapshot is the memory itself. */
  lemma SnapshotIsRecoverable<A>(s: Sim<A>, g: Ledger<A>, message: Message<A>, saved: nat)
    requires HostOk(s, g) && s.serializeCalled && s.tlbs == NoTlbs(|s.tlbs|)
    requires message == Message(s.arch, if s.serializeMem then s.Contents() else map[])
    requires !s.serializeMem ==> s.ckptPpn == s.spm.Keys && s.mmCkpt == map[]
    requires IsPeak(g, saved) && |s.mmCkpt| <= saved
    ensures Ok(s, g.(snap := Snapshot(s.Contents(), s.arch), message := message, epochs := g.epochs + [saved]))
  {
  }

  lemma SomeFreeAddress(used: set<Addr>) returns (a: Addr)
    ensures forall b | b in used :: b < a
  {
    if used == {} {
      a := 0;
    } else {
      var x :| x in used;
      var c := SomeFreeAddress(used - {x});
      a := if c <= x then x + 1 else c;
      forall b | b in used ensures b < a {
        if b != x { assert b in used - {x}; }
      }
    }
  }

  /** The host allocator: any address that is not out. */
  method Malloc(host: map<Addr, seq<byte>>) returns (a: Addr)
    ensures a !in host
  {
    ghost var free := SomeFreeAddress(host.Keys);
    assert free !in host;
    a :| a !in host;
  }

  /** The copy loop with `rest` still to go. */
  ghost predicate Copying<A>(s0: Sim<A>, s: Sim<A>, g: Ledger<A>, toFree: seq<nat>,
                             goal: Memory, collected: seq<nat>, rest: seq<nat>) {
    && HostOk(s, g)
    && s == s0.(host := s.host)
    && s.Saved() == s0.Saved()
    && CopiedBack(s.Contents(), s0.Saved(), s0.ckptPpn, rest) == goal
    && toFree + Collected(s0.ckptPpn, rest) == collected
    && Among(rest, s.spm)
  }

  lemma CopyStepBack<A>(s0: Sim<A>, s: Sim<A>, g: Ledger<A>, toFree: seq<nat>,
                        goal: Memory, collected: seq<nat>, rest: seq<nat>)
    requires rest != [] && Copying(s0, s, g, toFree, goal, collected, rest)
    requires rest[0] in s.ckptPpn && rest[0] in s.Saved()
    ensures Copying(s0, AfterCopyBack(s, rest[0]), g, toFree, goal, collected, rest[1..])
  {
    CopyBackKeepsHost(s, g, rest[0]);
    assert [] + Collected(s0.ckptPpn, rest[1..]) == Collected(s0.ckptPpn, rest[1..]);
    AmongRest(rest, s.spm);
  }

  lemma SkipUnsaved(mem: Memory, saved: Memory, recorded: set<nat>, rest: seq<nat>)
    requires rest != [] && rest[0] in recorded && rest[0] !in saved
    ensures CopiedBack(mem, saved, recorded, rest) == CopiedBack(mem, saved, recorded, rest[1..])
    ensures Collected(recorded, rest) == Collected(recorded, rest[1..])
  {
    assert [] + Collected(recorded, rest[1..]) == Collected(recorded, rest[1..]);
  }

  lemma CopyStepSkip<A>(s0: Sim<A>, s: Sim<A>, g: Ledger<A>, toFree: seq<nat>,
                        goal: Memory, collected: seq<nat>, rest: seq<nat>)
    requires rest != [] && Copying(s0, s, g, toFree, goal, collected, rest)
    requires rest[0] in s.ckptPpn && rest[0] !in s.Saved()
    ensures Copying(s0, s, g, toFree, goal, collected, rest[1..])
  {
    SkipUnsaved(s.Contents(), s0.Saved(), s0.ckptPpn, rest);
    AmongRest(rest, s.spm);
  }

  lemma CopyStepCollect<A>(s0: Sim<A>, s: Sim<A>, g: Ledger<A>, toFree: seq<nat>,
                           goal: Memory, collected: seq<nat>, rest: seq<nat>)
    requires rest != [] && Copying(s0, s, g, toFree, goal, collected, rest)
    requires rest[0] !in s.ckptPpn
    ensures Copying(s0, s, g, toFree + [rest[0]], goal, collected, rest[1..])
  {
    assert toFree + ([rest[0]] + Collected(s0.ckptPpn, rest[1..]))
        == toFree + [rest[0]] + Collected(s0.ckptPpn, rest[1..]);
    AmongRest(rest, s.spm);
  }

  lemma SavedMeansInCkpt<A>(s: Sim<A>, g: Ledger<A>, p: nat)
    requires HostOk(s, g) && p in s.spm
    ensures s.spm[p] in s.mmCkpt <==> p in s.Saved()
  {
  }

  /** First loop of the in-place restore: copy saved pages back, collect the pages that the snapshot
      does not have. */
  method CopyBack<A>(s0: Sim<A>, ghost g: Ledger<A>, pages: seq<nat>) returns (s: Sim<A>, toFree: seq<nat>)
    requires HostOk(s0, g) && Among(pages, s0.spm)
    ensures Copying(s0, s, g, toFree, CopiedBack(s0.Contents(), s0.Saved(), s0.ckptPpn, pages),
                    Collected(s0.ckptPpn, pages), [])
  {
    s, toFree := s0, [];
    var rest := pages;
    ghost var goal := CopiedBack(s0.Contents(), s0.Saved(), s0.ckptPpn, pages);
    ghost var collected := Collected(s0.ckptPpn, pages);
    while rest != []
      invariant Copying(s0, s, g, toFree, goal, collected, rest)
      decreases |rest|
    {
      var ppn := rest[0];
      SavedMeansInCkpt(s, g, ppn);
      if ppn !in s.ckptPpn {
        CopyStepCollect(s0, s, g, toFree, goal, collected, rest);
        toFree := toFree + [ppn];
      } else if s.spm[ppn] in s.mmCkpt {
        CopyStepBack(s0, s, g, toFree, goal, collected, rest);
        s := AfterCopyBack(s, ppn);
      } else {
        CopyStepSkip(s0, s, g, toFree, goal, collected, rest);
      }
      rest := rest[1..];
    }
  }

  /** The free loop with `rest` still to go. */
  ghost predicate Freeing<A>(s0: Sim<A>, g0: Ledger<A>, s: Sim<A>, g: Ledger<A>, goal: Memory, rest: seq<nat>) {
    && HostOk(s, g)
    && s == s0.(host := s.host, spm := s.spm) && g == g0.(roles := g.roles)
    && Without(s.Contents(), rest) == goal
    && Within(s.Saved(), s0.Saved())
    && Among(rest, s.spm)
  }

  ghost predicate Among(ps: seq<nat>, spm: map<nat, Addr>) {
    && (forall i | 0 <= i < |ps| :: ps[i] in spm)
    && (forall i, j | 0 <= i < j < |ps| :: ps[i] != ps[j])
  }

  lemma AmongRest(ps: seq<nat>, spm: map<nat, Addr>)
    requires ps != [] && Among(ps, spm)
    ensures Among(ps[1..], spm - {ps[0]})
  {
  }

  lemma FreeStep<A>(s0: Sim<A>, g0: Ledger<A>, s: Sim<A>, g: Ledger<A>, goal: Memory, rest: seq<nat>)
    requires rest != [] && Freeing(s0, g0, s, g, goal, rest)
    ensures Freeing(s0, g0, AfterFree(s, rest[0]), g.(roles := g.roles - {s.spm[rest[0]]}), goal, rest[1..])
  {
    FreeOne(s, g, rest[0]);
    WithinTransitive(AfterFree(s, rest[0]).Saved(), s.Saved(), s0.Saved());
    AmongRest(rest, s.spm);
  }

  /** Second loop: free the collected pages. */
  method FreePages<A>(s0: Sim<A>, ghost g0: Ledger<A>, toFree: seq<nat>)
    returns (s: Sim<A>, ghost g: Ledger<A>)
    requires Freeing(s0, g0, s0, g0, Without(s0.Contents(), toFree), toFree)
    ensures Freeing(s0, g0, s, g, Without(s0.Contents(), toFree), [])
    ensures s.Contents() == Without(s0.Contents(), toFree)
  {
    s, g := s0, g0;
    var rest := toFree;
    while rest != []
      invariant Freeing(s0, g0, s, g, Without(s0.Contents(), toFree), rest)
      decreases |rest|
    {
      FreeStep(s0, g0, s, g, Without(s0.Contents(), toFree), rest);
      s, g := AfterFree(s, rest[0]), g.(roles := g.roles - {s.spm[rest[0]]});
      rest := rest[1..];
    }
  }

  /** The load loop with `rest` still to go. */
  ghost predicate Loading<A>(s0: Sim<A>, g0: Ledger<A>, s: Sim<A>, g: Ledger<A>,
                             pages: Memory, goal: Memory, rest: seq<nat>) {
    && HostOk(s, g)
    && s == s0.(host := s.host, spm := s.spm) && g == g0.(roles := g.roles)
    && Loaded(s.Contents(), pages, rest) == goal
    && (forall i | 0 <= i < |rest| :: rest[i] in pages && rest[i] !in s.spm)
    && (forall i, j | 0 <= i < j < |rest| :: rest[i] != rest[j])
  }

  lemma LoadStep<A>(s0: Sim<A>, g0: Ledger<A>, s: Sim<A>, g: Ledger<A>,
                    pages: Memory, goal: Memory, rest: seq<nat>, a: Addr)
    requires rest != [] && Loading(s0, g0, s, g, pages, goal, rest) && a !in s.host
    requires |pages[rest[0]]| == PGSIZE
    ensures Loading(s0, g0, AfterAllocate(s, rest[0], a, pages[rest[0]]),
                    g.(roles := g.roles[a := PageOf(rest[0])]), pages, goal, rest[1..])
  {
    AllocateKeepsHost(s, g, rest[0], a, pages[rest[0]]);
    AllocateAddsPage(s, g, rest[0], a, pages[rest[0]]);
  }

  /** The loop of the full-copy restore: a new block for every page of the message. */
  method LoadPages<A>(s0: Sim<A>, ghost g0: Ledger<A>, pages: Memory, order: seq<nat>)
    returns (s: Sim<A>, ghost g: Ledger<A>)
    requires Loading(s0, g0, s0, g0, pages, Loaded(s0.Contents(), pages, order), order)
    requires forall p | p in pages :: |pages[p]| == PGSIZE
    ensures Loading(s0, g0, s, g, pages, Loaded(s0.Contents(), pages, order), [])
    ensures s.Contents() == Loaded(s0.Contents(), pages, order)
  {
    s, g := s0, g0;
    var rest := order;
    while rest != []
      invariant Loading(s0, g0, s, g, pages, Loaded(s0.Contents(), pages, order), rest)
      decreases |rest|
    {
      var ppn := rest[0];
      var a := Malloc(s.host);
      LoadStep(s0, g0, s, g, pages, Loaded(s0.Contents(), pages, order), rest, a);
      s, g := AfterAllocate(s, ppn, a, pages[ppn]), g.(roles := g.roles[a := PageOf(ppn)]);
      rest := rest[1..];
    }
  }

  lemma CollectedAmong<A>(s0: Sim<A>, pages: seq<nat>)
    requires Among(pages, s0.spm)
    ensures Among(Collected(s0.ckptPpn, pages), s0.spm)
  {
    CollectedAre(s0.ckptPpn, pages);
  }

  /** The in-place half of sim_lib_t::deserialize_proto. */
  method RestoreInPlace<A>(s0: Sim<A>, ghost g0: Ledger<A>) returns (s: Sim<A>, ghost g: Ledger<A>)
    requires HostOk(s0, g0)
    ensures HostOk(s, g) && Within(s.Saved(), s0.Saved())
    ensures s == s0.(host := s.host, spm := s.spm) && g == g0.(roles := g.roles)
    ensures s.Contents() == InPlaceRestore(s0.Contents(), s0.ckptPpn, s0.Saved())
  {
    var pages := List(s0.spm.Keys);
    assert s0.Contents().Keys == s0.spm.Keys;
    CopyThenFree(s0.Contents(), s0.Saved(), s0.ckptPpn, pages);
    CollectedAmong(s0, pages);
    var copied, toFree := CopyBack(s0, g0, pages);
    assert toFree == Collected(s0.ckptPpn, pages);
    s, g := FreePages(copied, g0, toFree);
  }

  /** The full-copy half: free every page, load the message's pages into new blocks. */
  method RestoreFull<A>(s0: Sim<A>, ghost g0: Ledger<A>, pages: Memory) returns (s: Sim<A>, ghost g: Ledger<A>)
    requires HostOk(s0, g0) && (forall p | p in pages :: |pages[p]| == PGSIZE)
    ensures HostOk(s, g)
    ensures s == s0.(host := s.host, spm := s.spm) && g == g0.(roles := g.roles)
    ensures s.Contents() == pages
  {
    var all := List(s0.spm.Keys);
    var order := List(pages.Keys);
    WithoutAll(s0.Contents(), all);
    LoadedAll(pages, order);
    s, g := FreePages(s0, g0, all);
    assert s.Contents() == map[];
    assert s.spm == map[] by {
      assert s.Contents().Keys == s.spm.Keys;
    }
    s, g := LoadPages(s, g, pages, order);
  }

  method TakeBuffer<A>(s: Sim<A>) returns (buf: Addr)
    ensures Usable(s, buf)
  {
    if |s.ckptMempool| == 0 {
      buf := Malloc(s.host);
    } else {
      buf := s.ckptMempool[|s.ckptMempool| - 1];
    }
  }

  // ----- restoring again

  /** A store to a live or a new page, with what the allocator would answer: `page` if the page is new,
      `buf` if it must be saved. */
  datatype StoreAt = StoreAt(ppn: nat, off: nat, bytes: seq<byte>, page: Addr, buf: Addr)

  function WithPage<A>(s: Sim<A>, w: StoreAt): Sim<A> {
    if w.ppn in s.spm then s else AfterAllocate(s, w.ppn, w.page, ZeroPage())
  }

  predicate MustSave<A>(s: Sim<A>, ppn: nat)
    requires ppn in s.spm
  {
    s.InPlace() && s.spm[ppn] !in s.mmCkpt
  }

  /** The store has room, and the answers are ones that the allocator may give. */
  ghost predicate StoreFits<A>(s: Sim<A>, w: StoreAt) {
    && w.off + |w.bytes| <= PGSIZE
    && (w.ppn !in s.spm ==> w.page !in s.host)
    && (MustSave(WithPage(s, w), w.ppn) ==> Usable(WithPage(s, w), w.buf))
  }

  ghost function AfterStore<A>(s: Sim<A>, g: Ledger<A>, w: StoreAt): (r: (Sim<A>, Ledger<A>))
    requires Ok(s, g) && StoreFits(s, w)
    ensures Ok(r.0, r.1) && r.1.snap == g.snap
    ensures r.0.serializeMem == s.serializeMem && r.0.serializeCalled == s.serializeCalled
    ensures r.0.ckptPpn == s.ckptPpn && (!s.InPlace() ==> r.0.mmCkpt == s.mmCkpt)
    ensures forall p <- s.spm :: p in r.0.spm && r.0.spm[p] == s.spm[p]
    ensures r.0.Contents() == Touch(s.Contents(), w.ppn)[
              w.ppn := Overlay(Touch(s.Contents(), w.ppn)[w.ppn], w.off, w.bytes)]
  {
    if w.ppn !in s.spm then
      AllocateKeepsOk(s, g, w.ppn, w.page);
      AfterStoreToPage(WithPage(s, w), g.(roles := g.roles[w.page := PageOf(w.ppn)]), w)
    else AfterStoreToPage(s, g, w)
  }

  ghost function AfterStoreToPage<A>(s: Sim<A>, g: Ledger<A>, w: StoreAt): (r: (Sim<A>, Ledger<A>))
    requires Ok(s, g) && w.ppn in s.spm && w.off + |w.bytes| <= PGSIZE && (MustSave(s, w.ppn) ==> Usable(s, w.buf))
    ensures Ok(r.0, r.1) && r.1.snap == g.snap
    ensures r.0.serializeMem == s.serializeMem && r.0.serializeCalled == s.serializeCalled
    ensures r.0.ckptPpn == s.ckptPpn && r.0.spm == s.spm && (!s.InPlace() ==> r.0.mmCkpt == s.mmCkpt)
    ensures r.0.Contents() == s.Contents()[w.ppn := Overlay(s.Contents()[w.ppn], w.off, w.bytes)]
  {
    var block := s.spm[w.ppn];
    if MustSave(s, w.ppn) then
      var there := s.host[block];
      SaveKeepsOk(s, g, block, w.buf, there);
      var t, h := AfterSave(s, block, w.buf, there), LedgerAfterSave(s, g, block, w.buf);
      WriteKeepsOk(t, h, w.ppn, w.off, w.bytes);
      (AfterWrite(t, block, w.off, w.bytes), h)
    else
      WriteKeepsOk(s, g, w.ppn, w.off, w.bytes);
      (AfterWrite(s, block, w.off, w.bytes), g)
  }

  ghost predicate StoresFit<A>(s: Sim<A>, g: Ledger<A>, ws: seq<StoreAt>)
    requires Ok(s, g)
    decreases |ws|
  {
    ws == [] || (StoreFits(s, ws[0]) && StoresFit(AfterStore(s, g, ws[0]).0, AfterStore(s, g, ws[0]).1, ws[1..]))
  }

  ghost function AfterStores<A>(s: Sim<A>, g: Ledger<A>, ws: seq<StoreAt>): (t: Sim<A>)
    requires Ok(s, g) && StoresFit(s, g, ws)
    decreases |ws|
  {
    if ws == [] then s else AfterStores(AfterStore(s, g, ws[0]).0, AfterStore(s, g, ws[0]).1, ws[1..])
  }

  /** What a caller can look up before deserialize_proto: the flag, or the two tables. */
  predicate Restorable<A>(s: Sim<A>) {
    s.serializeCalled || forall p <- s.ckptPpn :: p in s.spm && s.spm[p] in s.mmCkpt
  }

  ghost predicate RestoresTo<A>(s: Sim<A>, goal: Memory) {
    InPlaceRestore(s.Contents(), s.ckptPpn, s.Saved()) == goal
  }

  /** If nothing is unsaved, the saved copies are the snapshot. */
  lemma RestorableNow<A>(s: Sim<A>, g: Ledger<A>)
    requires Ok(s, g) && !s.serializeMem && Restorable(s)
    ensures RestoresTo(s, g.snap.mem)
  {
    if s.serializeCalled {
      RecoverableIsEnough(s.Contents(), s.ckptPpn, s.Saved(), g.snap.mem);
    } else {
      forall p | p in g.snap.mem ensures p in s.Saved() {
        SavedMeansInCkpt(s, g, p);
      }
      SecondRestoreIsExactWhen(s.Contents(), s.ckptPpn, s.Saved(), g.snap.mem);
    }
  }

  lemma {:induction false} StoresKeepRestorable<A>(s: Sim<A>, g: Ledger<A>, ws: seq<StoreAt>)
    requires Ok(s, g) && !s.serializeMem && Restorable(s) && StoresFit(s, g, ws)
    ensures RestoresTo(AfterStores(s, g, ws), g.snap.mem)
    decreases |ws|
  {
    if ws == [] {
      RestorableNow(s, g);
    } else {
      var r := AfterStore(s, g, ws[0]);
      StoresKeepRestorable(r.0, r.1, ws[1..]);
    }
  }

  /** With the flag down, one byte stored to an unsaved page is not undone. */
  lemma StoreToUnsaved<A>(s: Sim<A>, g: Ledger<A>, p: nat) returns (w: StoreAt)
    requires Ok(s, g) && !s.serializeMem && !s.serializeCalled
    requires p in s.ckptPpn && p in s.spm && s.spm[p] !in s.mmCkpt && s.Contents()[p] == g.snap.mem[p]
    ensures StoreFits(s, w) && !RestoresTo(AfterStore(s, g, w).0, g.snap.mem)
  {
    var was := s.Contents()[p];
    assert |was| == PGSIZE;
    var b: byte := if was[0] == 0 then 1 else 0;
    w := StoreAt(p, 0, [b], s.spm[p], s.spm[p]);
    var t := AfterStore(s, g, w).0;
    SavedMeansInCkpt(t, AfterStore(s, g, w).1, p);
    assert t.Contents()[p] == Overlay(was, 0, [b]);
    assert Overlay(was, 0, [b])[0..1] == [b];
    assert Overlay(was, 0, [b])[0] == b;
    assert InPlaceRestore(t.Contents(), t.ckptPpn, t.Saved())[p] == t.Contents()[p];
  }

  lemma StoresThatStay<A>(s: Sim<A>, g: Ledger<A>) returns (ws: seq<StoreAt>)
    requires Ok(s, g) && !s.serializeMem && !Restorable(s)
    ensures StoresFit(s, g, ws) && !RestoresTo(AfterStores(s, g, ws), g.snap.mem)
  {
    var p :| p in s.ckptPpn && !(p in s.spm && s.spm[p] in s.mmCkpt);
    assert p in s.Contents();
    SavedMeansInCkpt(s, g, p);
    if s.Contents()[p] == g.snap.mem[p] {
      var w := StoreToUnsaved(s, g, p);
      ws := [w];
      OneStore(s, g, w);
    } else {
      ws := [];
      SecondRestoreIsExactWhen(s.Contents(), s.ckptPpn, s.Saved(), g.snap.mem);
    }
  }

  lemma OneStore<A>(s: Sim<A>, g: Ledger<A>, w: StoreAt)
    requires Ok(s, g) && StoreFits(s, w)
    ensures StoresFit(s, g, [w]) && AfterStores(s, g, [w]) == AfterStore(s, g, w).0
  {
    assert [w][1..] == [];
  }

  /** The in-place restore gives the snapshot back whatever has been stored since if and only if the flag
      is still up or every page of the snapshot has a saved copy. */
  lemma RestoresWhateverWasStoredExactlyWhen<A>(s: Sim<A>, g: Ledger<A>)
    requires Ok(s, g) && !s.serializeMem
    ensures Restorable(s) <==>
      forall ws: seq<StoreAt> | StoresFit(s, g, ws) :: RestoresTo(AfterStores(s, g, ws), g.snap.mem)
  {
    if Restorable(s) {
      forall ws: seq<StoreAt> | StoresFit(s, g, ws) ensures RestoresTo(AfterStores(s, g, ws), g.snap.mem) {
        StoresKeepRestorable(s, g, ws);
      }
    } else {
      var ws := StoresThatStay(s, g);
    }
  }

  /** The state in which deserialize_proto starts on the memory. */
  function Flushed<A>(s: Sim<A>, arch: A): Sim<A> {
    s.(serializeCalled := false, arch := arch, tlbs := NoTlbs(|s.tlbs|))
  }

  lemma FlushedTlbsOk<A>(s: Sim<A>, n: nat)
    requires s.tlbs == NoTlbs(n)
    ensures TlbsOk(s)
  {
  }

  /** The in-place restore leaves everything in order, and the snapshot's own pages if it was armed. */
  lemma RestoredInPlace<A>(s0: Sim<A>, g0: Ledger<A>, s: Sim<A>, g: Ledger<A>, arch: A)
    requires Ok(s0, g0) && !s0.serializeMem && HostOk(s, g) && Within(s.Saved(), s0.Saved())
    requires s == Flushed(s0, arch).(host := s.host, spm := s.spm) && g == g0.(roles := g.roles)
    requires s.Contents() == InPlaceRestore(s0.Contents(), s0.ckptPpn, s0.Saved())
    ensures Ok(s, g)
    ensures s0.serializeCalled ==> s.Contents() == g.snap.mem
  {
    FlushedTlbsOk(s, |s0.tlbs|);
    if s0.serializeCalled {
      RecoverableIsEnough(s0.Contents(), s0.ckptPpn, s0.Saved(), g0.snap.mem);
    }
    RestoredIsRecoverable(s0.Contents(), s0.ckptPpn, s0.Saved(), g0.snap.mem, s0.serializeCalled, s.Saved());
  }

  lemma RestoredIsRecoverable(mem: Memory, recorded: set<nat>, saved: Memory, goal: Memory, armed: bool, kept: Memory)
    requires Recoverable(mem, recorded, saved, goal, armed) && Within(kept, saved)
    ensures Recoverable(InPlaceRestore(mem, recorded, saved), recorded, kept, goal, false)
  {
  }

  lemma MessageFits<A>(s: Sim<A>, g: Ledger<A>)
    requires Ok(s, g) && s.serializeCalled
    ensures forall p | p in g.message.pages :: |g.message.pages[p]| == PGSIZE
  {
  }

  class SimLib<A> {
    var st: Sim<A>
    ghost var ledger: Ledger<A>

    ghost predicate Valid()
      reads this
    {
      Ok(st, ledger)
    }

    ghost function View(): (v: Machine<A>)
      requires Valid()
      reads this
      ensures WellFormed(v) && SnapshotOk(v)
    {
      ViewWellFormed(st, ledger);
      ViewOf(st, ledger)
    }

    constructor (serializeMem: bool, dramPages: nat, mmus: nat, arch: A)
      ensures Valid() && st.serializeMem == serializeMem
      ensures View() == Machine(map[], seq(mmus, _ => EmptyTlb()), arch, Snapshot(map[], arch), false, dramPages)
    {
      st := Sim(serializeMem, dramPages, map[], arch, NoTlbs(mmus), map[], {}, [], map[], false);
      ledger := Ledger(map[], Snapshot(map[], arch), Message(arch, map[]), [], 0);
      new;
      NoTlbsView(mmus, seq(mmus, _ => EmptyTlb()));
    }

    /** mmu_lib_t::take_checkpoint.  `block` is any host address and `there` the PGSIZE bytes found
        at it.  A second save of one block changes nothing, and so does the save of an address that
        is not the base of a page. */
    method TakeCheckpoint(block: Addr, there: seq<byte>)
      requires Valid() && st.InPlace()
      requires |there| == PGSIZE && (block in st.host ==> there == st.host[block])
      modifies this
      ensures st.serializeMem == old(st.serializeMem) && ledger.epochs == old(ledger.epochs)
      ensures Valid() && View() == old(View())
      ensures st.spm == old(st.spm) && st.tlbs == old(st.tlbs) && st.InPlace()
      ensures st.mmCkpt.Keys == old(st.mmCkpt.Keys) + {block}
      // a buffer is allocated only when this epoch saves more pages than any epoch before
      ensures ledger.peak == if |st.mmCkpt| > old(ledger.peak) then |st.mmCkpt| else old(ledger.peak)
    {
      if block !in st.mmCkpt {
        var buf := TakeBuffer(st);
        SaveKeepsOk(st, ledger, block, buf, there);
        SaveCounts(st, ledger, block, buf, there);
        ledger := LedgerAfterSave(st, ledger, block, buf);
        st := AfterSave(st, block, buf, there);
      }
    }

    /** simif_t::addr_to_mem: the host block behind a physical page, allocated on first use. */
    method AddrToMem(ppn: nat) returns (base: Addr)
      requires Valid()
      modifies this
      ensures Valid() && View() == old(View()).(mem := Touch(old(st.Contents()), ppn))
      // what is allocated reads zero
      ensures st.Contents().Keys == old(st.Contents()).Keys + {ppn}
      ensures forall a: nat :: ByteAt(st.Contents(), a)
                            == (if a / 4096 == ppn && ppn !in old(st.Contents()) then Some(0)
                                else ByteAt(old(st.Contents()), a))
      ensures ppn in st.spm && base == st.spm[ppn]
      ensures st.tlbs == old(st.tlbs) && st.mmCkpt == old(st.mmCkpt) && st.serializeMem == old(st.serializeMem)
      ensures st.serializeCalled == old(st.serializeCalled) && ledger.epochs == old(ledger.epochs)
    {
      ViewWellFormed(st, ledger);
      TouchedBytes(st.Contents(), ppn);
      if ppn !in st.spm {
        var a := Malloc(st.host);
        AllocateKeepsOk(st, ledger, ppn, a);
        ledger := ledger.(roles := ledger.roles[a := PageOf(ppn)]);
        st := AfterAllocate(st, ppn, a, ZeroPage());
      }
      base := st.spm[ppn];
    }

    /** The page behind a store, saved first when the in-place mode is tracking. */
    method PreparePage(ppn: nat) returns (base: Addr)
      requires Valid()
      modifies this
      ensures st.serializeMem == old(st.serializeMem) && ledger.epochs == old(ledger.epochs)
      ensures Valid() && View() == old(View()).(mem := Touch(old(st.Contents()), ppn))
      ensures ppn in st.spm && base == st.spm[ppn] && (st.InPlace() ==> base in st.mmCkpt)
      ensures |st.tlbs| == |old(st.tlbs)|
      ensures !old(st.InPlace()) ==> st.mmCkpt == old(st.mmCkpt) && st.serializeCalled == old(st.serializeCalled)
    {
      base := AddrToMem(ppn);
      if st.InPlace() {
        TakeCheckpoint(base, st.host[base]);
      }
    }

    /** memcpy(host_addr, bytes, len), where `base` is the block of the page `ppn`. */
    method WriteBytes(base: Addr, off: nat, bytes: seq<byte>, ghost ppn: nat)
      requires Valid() && ppn in st.spm && st.spm[ppn] == base && off + |bytes| <= PGSIZE
      requires st.InPlace() ==> base in st.mmCkpt
      modifies this
      ensures Valid()
      ensures View() == old(View()).(mem := old(st.Contents())[ppn := Overlay(old(st.Contents())[ppn], off, bytes)])
      ensures st == old(st).(host := st.host) && ledger == old(ledger)
    {
      WriteKeepsOk(st, ledger, ppn, off, bytes);
      st := AfterWrite(st, base, off, bytes);
    }

    method SetSlot(cpu: nat, index: nat, e: HostSlot)
      requires Valid() && cpu < |st.tlbs| && index < TLB_ENTRIES && SlotOk(st, e)
      modifies this
      ensures st.serializeMem == old(st.serializeMem) && ledger.epochs == old(ledger.epochs)
      ensures Valid()
      ensures View() == WithSlot(old(View()), cpu, index, SlotView(e))
      ensures !old(st.InPlace()) ==> st.mmCkpt == old(st.mmCkpt) && st.serializeCalled == old(st.serializeCalled)
    {
      RefillKeepsOk(st, ledger, cpu, index, e);
      st := AfterRefill(st, cpu, index, e);
    }

    /** mmu_lib_t::store_slow_path_intrapage on a TLB hit.  The source passes the entry's
        host_offset, a displacement and not an address, to take_checkpoint: `displacement` may be
        anything, and `there` is what a read of that address yields. */
    method StoreHit(cpu: nat, r: StoreReq, displacement: Addr, there: seq<byte>)
      requires Valid() && cpu < |st.tlbs| && r.Intrapage()
      requires SlowHit(View().tlbs[cpu], r) && r.actuallyStore
      requires |there| == PGSIZE && (displacement in st.host ==> there == st.host[displacement])
      modifies this
      ensures st.serializeMem == old(st.serializeMem) && ledger.epochs == old(ledger.epochs)
      ensures Valid()
      ensures View() == Stored(old(View()), cpu, r)
      ensures DoesStore(old(View()), cpu, r, View())
      ensures !old(st.InPlace()) ==> st.mmCkpt == old(st.mmCkpt) && st.serializeCalled == old(st.serializeCalled)
    {
      StoredBytes(View(), cpu, r);
      if st.InPlace() {
        TakeCheckpoint(displacement, there);
      }
      WriteHit(cpu, r);
    }

    method StoreMiss(cpu: nat, r: StoreReq)
      requires Valid() && cpu < |st.tlbs| && r.Intrapage()
      requires !SlowHit(View().tlbs[cpu], r) && r.actuallyStore && r.Ppn() < st.dramPages
      modifies this
      ensures st.serializeMem == old(st.serializeMem) && ledger.epochs == old(ledger.epochs)
      ensures Valid()
      ensures View() == Stored(old(View()), cpu, r)
      ensures DoesStore(old(View()), cpu, r, View())
      ensures !old(st.InPlace()) ==> st.mmCkpt == old(st.mmCkpt) && st.serializeCalled == old(st.serializeCalled)
    {
      StoredBytes(View(), cpu, r);
      StoredByMiss(View(), cpu, r);
      WriteMiss(cpu, r);
      RefillTlb(cpu, r);
    }

    /** refill_tlb, for a page that has been prepared. */
    method RefillTlb(cpu: nat, r: StoreReq)
      requires Valid() && cpu < |st.tlbs|
      requires r.Ppn() in st.spm && (st.InPlace() ==> st.spm[r.Ppn()] in st.mmCkpt)
      modifies this
      ensures st.serializeMem == old(st.serializeMem) && ledger.epochs == old(ledger.epochs)
      ensures Valid()
      ensures View() == Refilled(old(View()), cpu, r)
      ensures !old(st.InPlace()) ==> st.mmCkpt == old(st.mmCkpt) && st.serializeCalled == old(st.serializeCalled)
    {
      if !r.traced && !r.special && r.installs {
        SetSlot(cpu, r.Index(), Entry(r.Vpn(), st.spm[r.Ppn()], r.Ppn(), r.trigger));
      }
    }

    method WriteMiss(ghost cpu: nat, r: StoreReq)
      requires Valid() && cpu < |st.tlbs| && r.Intrapage()
      requires !SlowHit(View().tlbs[cpu], r) && r.actuallyStore && r.Ppn() < st.dramPages
      modifies this
      ensures st.serializeMem == old(st.serializeMem) && ledger.epochs == old(ledger.epochs)
      ensures Valid()
      ensures View() == Written(old(View()), cpu, r)
      ensures r.Ppn() in st.spm && (st.InPlace() ==> st.spm[r.Ppn()] in st.mmCkpt)
      ensures |st.tlbs| == |old(st.tlbs)|
      ensures !old(st.InPlace()) ==> st.mmCkpt == old(st.mmCkpt) && st.serializeCalled == old(st.serializeCalled)
    {
      var base := PreparePage(r.Ppn());
      WriteBytes(base, r.Offset(), r.bytes, r.Ppn());
    }

    /** mmu_lib_t::store_slow_path_intrapage. */
    method StoreSlowPathIntrapage(cpu: nat, r: StoreReq, displacement: Addr, there: seq<byte>, mmioOk: bool)
      returns (fault: bool)
      requires Valid() && cpu < |st.tlbs| && r.Intrapage()
      requires |there| == PGSIZE && (displacement in st.host ==> there == st.host[displacement])
      modifies this
      ensures st.serializeMem == old(st.serializeMem) && ledger.epochs == old(ledger.epochs)
      ensures Valid()
      ensures View() == Stored(old(View()), cpu, r)
      ensures DoesStore(old(View()), cpu, r, View())
      ensures fault <==> r.actuallyStore && !SlowHit(old(View()).tlbs[cpu], r)
                         && r.Ppn() >= old(st.dramPages) && !mmioOk
      ensures !old(st.InPlace()) ==> st.mmCkpt == old(st.mmCkpt) && st.serializeCalled == old(st.serializeCalled)
    {
      StoredBytes(View(), cpu, r);
      fault := false;
      var e := st.tlbs[cpu][r.Index()];
      if !r.special && e.Entry? && e.vpn == r.Vpn() {
        if r.actuallyStore {
          StoreHit(cpu, r, displacement, there);
        } else {
          StoredByHit(View(), cpu, r);
        }
      } else if r.actuallyStore {
        if r.Ppn() < st.dramPages {
          StoreMiss(cpu, r);
        } else {
          StoredByHit(View(), cpu, r);
          fault := !mmioOk;
        }
      } else {
        StoredByHit(View(), cpu, r);
      }
    }

    /** A store as Spike issues it: an untriggered TLB hit is written without entering mmu_lib_t at
        all, so nothing is saved on that path. */
    method Store(cpu: nat, r: StoreReq, displacement: Addr, there: seq<byte>, mmioOk: bool)
      returns (fault: bool)
      requires Valid() && cpu < |st.tlbs| && r.Intrapage()
      requires |there| == PGSIZE && (displacement in st.host ==> there == st.host[displacement])
      modifies this
      ensures st.serializeMem == old(st.serializeMem) && ledger.epochs == old(ledger.epochs)
      ensures Valid()
      ensures View() == Stored(old(View()), cpu, r)
      ensures DoesStore(old(View()), cpu, r, View())
      ensures !old(st.InPlace()) ==> st.mmCkpt == old(st.mmCkpt) && st.serializeCalled == old(st.serializeCalled)
    {
      StoredBytes(View(), cpu, r);
      var e := st.tlbs[cpu][r.Index()];
      if !r.special && r.actuallyStore && e.Entry? && e.vpn == r.Vpn() && !e.trigger {
        fault := false;
        WriteHit(cpu, r);
      } else {
        fault := StoreSlowPathIntrapage(cpu, r, displacement, there, mmioOk);
      }
    }

    method WriteHit(cpu: nat, r: StoreReq)
      requires Valid() && cpu < |st.tlbs| && r.Intrapage()
      requires SlowHit(View().tlbs[cpu], r) && r.actuallyStore
      modifies this
      ensures st.serializeMem == old(st.serializeMem) && ledger.epochs == old(ledger.epochs)
      ensures Valid()
      ensures View() == Stored(old(View()), cpu, r)
      ensures DoesStore(old(View()), cpu, r, View())
      ensures !old(st.InPlace()) ==> st.mmCkpt == old(st.mmCkpt) && st.serializeCalled == old(st.serializeCalled)
    {
      StoredBytes(View(), cpu, r);
      var e := st.tlbs[cpu][r.Index()];
      assert SlotOk(st, e);
      StoredByHit(View(), cpu, r);
      WriteBytes(e.host, r.Offset(), r.bytes, e.ppn);
    }

    /** The saved copies of the last epoch go back to the pool. */
    method DrainIntoPool()
      requires HostOk(st, ledger)
      modifies this
      ensures HostOk(st, ledger) && st.mmCkpt == map[]
      ensures st == old(st).(ckptMempool := st.ckptMempool, mmCkpt := map[])
      ensures ledger == old(ledger).(roles := ledger.roles)
    {
      while st.mmCkpt != map[]
        invariant HostOk(st, ledger)
        invariant st == old(st).(ckptMempool := st.ckptMempool, mmCkpt := st.mmCkpt)
        invariant ledger == old(ledger).(roles := ledger.roles)
        decreases |st.mmCkpt|
      {
        var k :| k in st.mmCkpt;
        ReturnToPool(st, ledger, k);
        RemoveCounts(st.mmCkpt, k);
        ledger := ledger.(roles := ledger.roles[st.mmCkpt[k] := Pooled(|st.ckptMempool|)]);
        st := st.(ckptMempool := st.ckptMempool + [st.mmCkpt[k]], mmCkpt := st.mmCkpt - {k});
      }
    }

    /** sim_lib_t::serialize_proto. */
    method Serialize() returns (message: Message<A>)
      requires Valid()
      modifies this
      ensures st.serializeMem == old(st.serializeMem) && ledger.epochs == old(ledger.epochs) + [|old(st.mmCkpt)|]
      ensures Valid() && message == ledger.message
      ensures message.arch == st.arch && (st.serializeMem ==> message.pages == old(st.Contents()))
      ensures var v := old(View());
              View() == v.(tlbs := FlushAll(v.tlbs), snap := Snapshot(v.mem, v.arch), armed := true)
      ensures st.mmCkpt == if st.serializeMem then old(st.mmCkpt) else map[]
    {
      ghost var mem, saved := st.Contents(), |st.mmCkpt|;
      NoTlbsView(|st.tlbs|, TlbViews(st.tlbs));
      st := st.(serializeCalled := true, tlbs := NoTlbs(|st.tlbs|));
      var pages: Memory := map[];
      if st.serializeMem {
        pages := st.Contents();
      } else {
        st := st.(ckptPpn := st.spm.Keys);
        DrainIntoPool();
      }
      message := Message(st.arch, pages);
      SnapshotIsRecoverable(st, ledger, message, saved);
      ledger := ledger.(snap := Snapshot(mem, st.arch), message := message, epochs := ledger.epochs + [saved]);
    }

    /** sim_lib_t::deserialize_proto.  While the last snapshot is armed this is exactly a restore.
        After that the full-copy mode still restores whatever message it is given, and the in-place
        mode restores what it happens to have saved: see SecondRestoreIsExactWhen. */
    method Deserialize(message: Message<A>)
      requires Valid() && Holds(message)
      requires forall p | p in message.pages :: |message.pages[p]| == PGSIZE
      modifies this
      ensures st.serializeMem == old(st.serializeMem) && ledger.epochs == old(ledger.epochs)
      ensures Valid() && st.arch == message.arch && !st.serializeCalled
      ensures st.serializeMem ==> st.Contents() == message.pages
      ensures !st.serializeMem ==>
                st.Contents() == InPlaceRestore(old(st.Contents()), old(st.ckptPpn), old(st.Saved()))
      ensures var v := old(View());
              v.armed ==>
                View() == v.(tlbs := FlushAll(v.tlbs), mem := v.snap.mem, arch := v.snap.arch, armed := false)
      ensures st.mmCkpt == old(st.mmCkpt) && ledger.snap == old(ledger.snap)
    {
      NoTlbsView(|st.tlbs|, TlbViews(st.tlbs));
      if !st.serializeMem {
        DeserializeInPlace(message.arch);
      } else {
        DeserializeFull(message);
      }
    }

    method DeserializeInPlace(arch: A)
      requires Valid() && !st.serializeMem
      modifies this
      ensures st == old(st).(serializeCalled := false, arch := arch, tlbs := NoTlbs(|old(st).tlbs|),
                             host := st.host, spm := st.spm)
      ensures Valid() && ledger.snap == old(ledger).snap && ledger.epochs == old(ledger).epochs
      ensures st.Contents() == InPlaceRestore(old(st.Contents()), old(st.ckptPpn), old(st.Saved()))
      ensures old(st.serializeCalled) ==> st.Contents() == ledger.snap.mem
    {
      ghost var s0, g0 := st, ledger;
      st := Flushed(st, arch);
      st, ledger := RestoreInPlace(st, ledger);
      RestoredInPlace(s0, g0, st, ledger, arch);
    }

    method DeserializeFull(message: Message<A>)
      requires Valid() && st.serializeMem && forall p | p in message.pages :: |message.pages[p]| == PGSIZE
      modifies this
      ensures st == old(st).(serializeCalled := false, arch := message.arch, tlbs := NoTlbs(|old(st).tlbs|),
                             host := st.host, spm := st.spm)
      ensures Valid() && ledger.snap == old(ledger).snap && ledger.epochs == old(ledger).epochs
      ensures st.Contents() == message.pages
    {
      ghost var s0, g0 := st, ledger;
      st := Flushed(st, message.arch);
      st, ledger := RestoreFull(st, ledger, message.pages);
      FlushedTlbsOk(st, |s0.tlbs|);
    }

    /** Some host address that is no better than a guess, and what a read of it yields. */
    method AnyAddress() returns (a: Addr, there: seq<byte>)
      requires Valid()
      ensures |there| == PGSIZE && (a in st.host ==> there == st.host[a])
    {
      a := *;
      assert |ZeroPage()| == PGSIZE;
      there :| |there| == PGSIZE;
      if a in st.host {
        there := st.host[a];
      }
    }

    method ExecuteStore(cpu: nat, r: StoreReq)
      requires Valid() && cpu < |st.tlbs| && r.Intrapage()
      modifies this
      ensures st.serializeMem == old(st.serializeMem) && ledger.epochs == old(ledger.epochs)
      ensures Valid()
      ensures View() == Stored(old(View()), cpu, r)
    {
      var displacement, there := AnyAddress();
      var mmioOk: bool := *;
      var _ := Store(cpu, r, displacement, there, mmioOk);
    }

    method ExecuteSpurious()
      requires Valid()
      modifies this
      ensures st.serializeMem == old(st.serializeMem) && ledger.epochs == old(ledger.epochs)
      ensures Valid() && View() == old(View())
    {
      var a, there := AnyAddress();
      if st.InPlace() {
        TakeCheckpoint(a, there);
      }
    }

    ghost predicate Holds(message: Message<A>)
      reads this
    {
      st.serializeCalled ==> message == ledger.message
    }

    /** Any one thing that can happen to the memory side.  `held` is the message of the last
        snapshot, kept by the caller. */
    method Execute(op: Op<A>, held: Message<A>) returns (message: Message<A>)
      requires Valid() && Enabled(View(), op) && Holds(held)
      modifies this
      ensures st.serializeMem == old(st.serializeMem)
      ensures ledger.epochs == old(ledger.epochs) + if op.Serialize? then [|old(st.mmCkpt)|] else []
      ensures Valid() && Holds(message)
      ensures View() == Step(old(View()), op)
    {
      ViewWellFormed(st, ledger);
      message := held;
      match op {
        case Store(cpu, r) => ExecuteStore(cpu, r);
        case TouchPage(ppn) => var _ := AddrToMem(ppn);
        case Evict(cpu, index) => SetSlot(cpu, index, NoEntry);
        case SetArch(a) => st := st.(arch := a);
        case SpuriousCheckpoint => ExecuteSpurious();
        case Serialize => message := Serialize();
        case Deserialize =>
          MessageFits(st, ledger);
          Deserialize(held);
      }
    }

    static function Snapshots(ops: seq<Op<A>>): nat {
      if ops == [] then 0 else (if ops[0].Serialize? then 1 else 0) + Snapshots(ops[1..])
    }

    /** Every run refines the model; each snapshot on it ends an epoch, and no more buffers than the largest
        epoch needed are ever allocated (see PeakOk in Valid, and BuffersAreConserved). */
    method ExecuteAll(ops: seq<Op<A>>, held: Message<A>) returns (message: Message<A>)
      requires Valid() && Holds(held)
      requires EnabledRun(View(), ops)
      modifies this
      ensures st.serializeMem == old(st.serializeMem)
      ensures old(ledger.epochs) <= ledger.epochs && |ledger.epochs| == |old(ledger.epochs)| + Snapshots(ops)
      ensures Valid() && Holds(message)
      ensures View() == Run(old(View()), ops)
      decreases |ops|
    {
      message := held;
      if ops != [] {
        message := Execute(ops[0], message);
        ViewWellFormed(st, ledger);
        message := ExecuteAll(ops[1..], message);
      }
    }
  }

  /** The in-place mode refines the full-copy mode: started alike, they show the same memory, TLBs
      and architectural state after any run. */
  method ModesAgree<A>(full: SimLib<A>, inPlace: SimLib<A>, ops: seq<Op<A>>,
                       heldFull: Message<A>, heldInPlace: Message<A>)
    requires full != inPlace && full.st.serializeMem && !inPlace.st.serializeMem
    requires full.Valid() && inPlace.Valid() && full.View() == inPlace.View()
    requires full.Holds(heldFull) && inPlace.Holds(heldInPlace)
    requires EnabledRun(full.View(), ops)
    modifies full, inPlace
    ensures full.Valid() && inPlace.Valid() && full.View() == inPlace.View()
  {
    var _ := full.ExecuteAll(ops, heldFull);
    var _ := inPlace.ExecuteAll(ops, heldInPlace);
  }

  /** Snapshot, run ahead in any way, restore: the memory and the architectural state are back. */
  method RunAheadAndBack<A>(sim: SimLib<A>, ahead: seq<Op<A>>)
    requires sim.Valid() && Forward(ahead)
    requires EnabledRun(Step(sim.View(), Op.Serialize), ahead)
    modifies sim
    ensures sim.Valid()
    ensures var now := Run(Step(old(sim.View()), Op.Serialize), ahead);
            now.armed && sim.View() == Step(now, Op.Deserialize)
    ensures sim.View().mem == old(sim.View().mem) && sim.View().arch == old(sim.View().arch)
  {
    RestoreGivesBack(sim.View(), ahead);
    var message := sim.Serialize();
    message := sim.ExecuteAll(ahead, message);
    message := sim.Execute(Op.Deserialize, message);
  }

  const OneByte := StoreReq(0, 0, [1], false, true, true, false, false)

  function FirstByteSet(page: seq<byte>): (r: seq<byte>)
    requires |page| == PGSIZE
    ensures |r| == PGSIZE && r[0] == 1
  {
    var r := Overlay(page, 0, [1]);
    assert r[0..1] == [1];
    assert r[0] == r[0..1][0];
    r
  }

  /** A machine with one core, one page and the snapshot `goal` of it, no store entry, and the flag down. */
  ghost predicate Untracked<A>(v: Machine<A>, goal: seq<byte>, page: seq<byte>) {
    && |goal| == |page| == PGSIZE
    && v.mem == map[0 := page] && v.snap.mem == map[0 := goal] && v.tlbs == [EmptyTlb()]
    && v.dramPages == 1 && !v.armed
  }

  lemma OneByteSetsFirst<A>(v: Machine<A>, goal: seq<byte>, page: seq<byte>)
    requires WellFormed(v) && Untracked(v, goal, page)
    ensures OneByte.Intrapage() && StoreMemory(v.mem, v.tlbs[0], 1, OneByte) == map[0 := FirstByteSet(page)]
    ensures StoreTlb(v.tlbs[0], 1, OneByte) == EmptyTlb()
  {
    assert Touch(v.mem, 0) == v.mem;
    assert v.mem[0 := FirstByteSet(page)] == map[0 := FirstByteSet(page)];
  }

  /** With nothing saved, the restore keeps what is there. */
  lemma NothingSaved<A>(s: Sim<A>, g: Ledger<A>)
    requires Ok(s, g) && !s.serializeMem && s.mmCkpt == map[] && g.snap.mem.Keys == s.Contents().Keys
    ensures InPlaceRestore(s.Contents(), s.ckptPpn, s.Saved()) == s.Contents()
  {
    assert s.Saved() == map[];
  }

  /** One page, allocated on first use, snapshotted and restored. */
  method OnePageRestored<A>(arch: A) returns (sim: SimLib<A>, message: Message<A>)
    ensures fresh(sim) && sim.Valid() && !sim.st.serializeMem
    ensures sim.st.mmCkpt == map[] && message.pages == map[]
    ensures Untracked(sim.View(), ZeroPage(), ZeroPage())
  {
    sim := new SimLib<A>(false, 1, 1, arch);
    assert seq(1, _ => EmptyTlb()) == [EmptyTlb()];
    var _ := sim.AddrToMem(0);
    assert sim.View().mem == map[0 := ZeroPage()];
    message := sim.Serialize();
    sim.Deserialize(message);
    assert FlushAll(FlushAll([EmptyTlb()])) == [EmptyTlb()];
  }

  method StoreByte<A>(sim: SimLib<A>, ghost goal: seq<byte>, ghost page: seq<byte>)
    requires sim.Valid() && Untracked(sim.View(), goal, page)
    modifies sim
    ensures sim.Valid() && Untracked(sim.View(), goal, FirstByteSet(page))
    ensures sim.st.serializeMem == old(sim.st.serializeMem) && sim.st.mmCkpt == old(sim.st.mmCkpt)
  {
    OneByteSetsFirst(sim.View(), goal, page);
    ghost var v := sim.View();
    var displacement, there := sim.AnyAddress();
    var _ := sim.Store(0, OneByte, displacement, there, true);
    assert sim.View() == Stored(v, 0, OneByte);
    assert v.tlbs[0 := EmptyTlb()] == [EmptyTlb()];
  }

  method RestoreAgain<A>(sim: SimLib<A>, message: Message<A>, ghost goal: seq<byte>, ghost page: seq<byte>)
    returns (restored: Memory)
    requires sim.Valid() && !sim.st.serializeMem && sim.st.mmCkpt == map[] && message.pages == map[]
    requires Untracked(sim.View(), goal, page)
    modifies sim
    ensures restored == map[0 := page]
  {
    assert sim.View().snap.mem.Keys == sim.View().mem.Keys;
    NothingSaved(sim.st, sim.ledger);
    sim.Deserialize(message);
    restored := sim.st.Contents();
  }

  /** A second restore can lose the snapshot: take it, restore it, store one byte, restore it again. */
  method SecondRestoreKeepsStore<A>(arch: A) returns (snapshot: Memory, restored: Memory)
    ensures 0 in snapshot && 0 in restored && |snapshot[0]| == |restored[0]| == PGSIZE
    ensures snapshot[0][0] == 0 && restored[0][0] == 1
  {
    var sim, message := OnePageRestored(arch);
    snapshot := sim.st.Contents();
    assert snapshot == sim.View().mem == map[0 := ZeroPage()];
    StoreByte(sim, ZeroPage(), ZeroPage());
    restored := RestoreAgain(sim, message, ZeroPage(), FirstByteSet(ZeroPage()));
  }
}
