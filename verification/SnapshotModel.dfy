/** What checkpoint and rewind mean, with no copy-on-write in sight.

    A machine is its logical memory (physical page number to page contents), one store TLB per
    MMU, an opaque architectural state, and the last snapshot.  Taking a snapshot copies
    everything; restoring copies everything back.  Module Checkpoint proves that both memory modes
    of the simulator, the full copy and the in-place one, behave like this model. */
module SnapshotModel {
  import opened Common

  const TLB_ENTRIES: nat := 256

  newtype byte = x: int | 0 <= x < 256

  type Memory = map<nat, seq<byte>>

  /** One store-TLB slot.  `trigger` is Spike's TLB_CHECK_TRIGGERS bit: such an entry matches in the
      slow path but not in the inlined fast path. */
  datatype Slot = Invalid | Slot(vpn: nat, ppn: nat, trigger: bool)

  type Tlb = seq<Slot>

  /** One store that stays inside a page.  `paddr` is what translation yields for `vaddr`.
      `installs` and `trigger` are Spike's own decisions inside refill_tlb. */
  datatype StoreReq = StoreReq(
    vaddr: nat, paddr: nat, bytes: seq<byte>,
    special: bool, actuallyStore: bool, traced: bool, installs: bool, trigger: bool)
  {
    ghost predicate Intrapage() {
      && vaddr % PGSIZE == paddr % PGSIZE
      && vaddr % PGSIZE + |bytes| <= PGSIZE
    }

    function Vpn(): nat { vaddr / PGSIZE }
    function Ppn(): nat { paddr / PGSIZE }
    function Offset(): nat { vaddr % PGSIZE }
    function Index(): nat { Vpn() % TLB_ENTRIES }
  }

  datatype Snapshot<A> = Snapshot(mem: Memory, arch: A)

  /** `armed` says that the snapshot is waiting to be restored (serialize_called). */
  datatype Machine<A> = Machine(
    mem: Memory, tlbs: seq<Tlb>, arch: A, snap: Snapshot<A>, armed: bool, dramPages: nat)

  ghost predicate WellFormed<A>(m: Machine<A>) {
    && (forall p | p in m.mem :: |m.mem[p]| == PGSIZE)
    && (forall i | 0 <= i < |m.tlbs| :: TlbWellFormed(m.mem, m.tlbs[i]))
  }

  ghost predicate TlbWellFormed(mem: Memory, tlb: Tlb) {
    && |tlb| == TLB_ENTRIES
    && (forall k | 0 <= k < TLB_ENTRIES :: tlb[k].Slot? ==> tlb[k].ppn in mem)
  }

  function ZeroPage(): (p: seq<byte>)
    ensures |p| == PGSIZE
  {
    seq(PGSIZE, _ => 0)
  }

  function EmptyTlb(): (t: Tlb)
    ensures |t| == TLB_ENTRIES
  {
    seq(TLB_ENTRIES, _ => Invalid)
  }

  function FlushAll(tlbs: seq<Tlb>): (r: seq<Tlb>)
    ensures |r| == |tlbs|
  {
    seq(|tlbs|, _ => EmptyTlb())
  }

  function Overlay(page: seq<byte>, off: nat, bytes: seq<byte>): (r: seq<byte>)
    requires off + |bytes| <= |page|
    ensures |r| == |page|
    ensures r[off..off + |bytes|] == bytes
  {
    page[..off] + bytes + page[off + |bytes|..]
  }

  /** Spike allocates a DRAM page, zeroed, the first time anything addresses it. */
  function Touch(mem: Memory, ppn: nat): Memory {
    if ppn in mem then mem else mem[ppn := ZeroPage()]
  }

  predicate SlowHit(tlb: Tlb, r: StoreReq)
    requires |tlb| == TLB_ENTRIES
  {
    && !r.special
    && tlb[r.Index()].Slot?
    && tlb[r.Index()].vpn == r.Vpn()
  }

  function StoreMemory(mem: Memory, tlb: Tlb, dramPages: nat, r: StoreReq): Memory
    requires TlbWellFormed(mem, tlb) && (forall p | p in mem :: |mem[p]| == PGSIZE)
    requires r.Intrapage()
  {
    if !r.actuallyStore then mem
    else if SlowHit(tlb, r) then
      var ppn := tlb[r.Index()].ppn;
      mem[ppn := Overlay(mem[ppn], r.Offset(), r.bytes)]
    else if r.Ppn() < dramPages then
      var touched := Touch(mem, r.Ppn());
      touched[r.Ppn() := Overlay(touched[r.Ppn()], r.Offset(), r.bytes)]
    else mem
  }

  function StoreTlb(tlb: Tlb, dramPages: nat, r: StoreReq): Tlb
    requires |tlb| == TLB_ENTRIES
  {
    if r.actuallyStore && !SlowHit(tlb, r) && r.Ppn() < dramPages
       && !r.traced && !r.special && r.installs
    then tlb[r.Index() := Slot(r.Vpn(), r.Ppn(), r.trigger)]
    else tlb
  }

  /** One store by one core. */
  ghost function Stored<A>(m: Machine<A>, cpu: nat, q: StoreReq): Machine<A>
    requires WellFormed(m) && cpu < |m.tlbs| && q.Intrapage()
  {
    m.(mem := StoreMemory(m.mem, m.tlbs[cpu], m.dramPages, q),
       tlbs := m.tlbs[cpu := StoreTlb(m.tlbs[cpu], m.dramPages, q)])
  }

  /** Its effect on the memory. */
  ghost function Written<A>(m: Machine<A>, cpu: nat, q: StoreReq): (r: Machine<A>)
    requires WellFormed(m) && cpu < |m.tlbs| && q.Intrapage()
    ensures |r.tlbs| == |m.tlbs| && r.tlbs[cpu] == m.tlbs[cpu]
  {
    m.(mem := StoreMemory(m.mem, m.tlbs[cpu], m.dramPages, q))
  }

  function WithSlot<A>(m: Machine<A>, cpu: nat, index: nat, e: Slot): Machine<A>
    requires cpu < |m.tlbs| && index < |m.tlbs[cpu]|
  {
    m.(tlbs := m.tlbs[cpu := m.tlbs[cpu][index := e]])
  }

  /** refill_tlb after a store that missed, unless the store is traced or special; Spike decides. */
  function Refilled<A>(m: Machine<A>, cpu: nat, q: StoreReq): Machine<A>
    requires cpu < |m.tlbs| && q.Index() < |m.tlbs[cpu]|
  {
    if !q.traced && !q.special && q.installs then WithSlot(m, cpu, q.Index(), Slot(q.Vpn(), q.Ppn(), q.trigger)) else m
  }

  /** A store that misses: the memory first, and then perhaps the entry. */
  lemma StoredByMiss<A>(m: Machine<A>, cpu: nat, q: StoreReq)
    requires WellFormed(m) && cpu < |m.tlbs| && q.Intrapage()
    requires q.actuallyStore && !SlowHit(m.tlbs[cpu], q) && q.Ppn() < m.dramPages
    ensures Stored(m, cpu, q) == Refilled(Written(m, cpu, q), cpu, q)
  {
    assert m.tlbs[cpu := m.tlbs[cpu]] == m.tlbs;
  }

  /** One that hits, or stores nothing, leaves the entries alone. */
  lemma StoredByHit<A>(m: Machine<A>, cpu: nat, q: StoreReq)
    requires WellFormed(m) && cpu < |m.tlbs| && q.Intrapage()
    requires !q.actuallyStore || SlowHit(m.tlbs[cpu], q) || q.Ppn() >= m.dramPages
    ensures Stored(m, cpu, q) == Written(m, cpu, q)
  {
    assert m.tlbs[cpu := m.tlbs[cpu]] == m.tlbs;
  }

  // ----- a store, byte by byte

  /** The byte at a physical address, if its page exists. */
  function ByteAt(mem: Memory, a: nat): Option<byte> {
    if a / 4096 in mem && a % 4096 < |mem[a / 4096]| then Some(mem[a / 4096][a % 4096]) else None
  }

  /** The byte at address a, once `bytes` have been written from `target` on.  A page that had to be
      allocated for that reads zero elsewhere. */
  function ByteThen(before: Memory, target: nat, bytes: seq<byte>, a: nat): Option<byte> {
    if target <= a < target + |bytes| then Some(bytes[a - target])
    else if a / 4096 == target / 4096 && a / 4096 !in before then Some(0)
    else ByteAt(before, a)
  }

  /** Exactly those bytes have been written, and at most the page of `target` is new. */
  ghost predicate WrittenAt(before: Memory, after: Memory, target: nat, bytes: seq<byte>) {
    && after.Keys == before.Keys + {target / 4096}
    && (forall a: nat :: ByteAt(after, a) == ByteThen(before, target, bytes, a))
  }

  /** The valid store-TLB entry that is looked up for a virtual address, if it is the right one. */
  function EntryFor(tlb: Tlb, vaddr: nat): (r: Option<Slot>)
    requires |tlb| == TLB_ENTRIES
    ensures r.Some? ==> r.value.Slot?
  {
    var slot := tlb[(vaddr / 4096) % 256];
    if slot.Slot? && slot.vpn == vaddr / 4096 then Some(slot) else None
  }

  /** What a store does to the memory: an entry directs it to its page, whatever the translation says now;
      otherwise it goes to the translated address if that is memory. */
  ghost predicate StoresBytes(before: Memory, tlb: Tlb, dramPages: nat, q: StoreReq, after: Memory)
    requires |tlb| == TLB_ENTRIES
  {
    if !q.actuallyStore then after == before
    else if !q.special && EntryFor(tlb, q.vaddr).Some? then
      WrittenAt(before, after, EntryFor(tlb, q.vaddr).value.ppn * 4096 + q.vaddr % 4096, q.bytes)
    else if q.paddr / 4096 < dramPages then WrittenAt(before, after, q.paddr, q.bytes)
    else after == before
  }

  /** And to the store TLB: a store to memory that finds no entry may leave one, unless it is traced or
      special. */
  ghost predicate LeavesEntry(before: Tlb, dramPages: nat, q: StoreReq, after: Tlb)
    requires |before| == TLB_ENTRIES
  {
    var missed := q.actuallyStore && (q.special || EntryFor(before, q.vaddr).None?) && q.paddr / 4096 < dramPages;
    && |after| == |before|
    && (forall k | 0 <= k < 256 ::
          after[k] == if missed && !q.traced && !q.special && q.installs && k == (q.vaddr / 4096) % 256
                      then Slot(q.vaddr / 4096, q.paddr / 4096, q.trigger) else before[k])
  }

  /** Both for one core, and nothing else is changed. */
  ghost predicate DoesStore<A>(before: Machine<A>, cpu: nat, q: StoreReq, after: Machine<A>)
    requires WellFormed(before) && cpu < |before.tlbs|
  {
    && StoresBytes(before.mem, before.tlbs[cpu], before.dramPages, q, after.mem)
    && |after.tlbs| == |before.tlbs|
    && LeavesEntry(before.tlbs[cpu], before.dramPages, q, after.tlbs[cpu])
    && (forall other | 0 <= other < |before.tlbs| && other != cpu :: after.tlbs[other] == before.tlbs[other])
    && after == before.(mem := after.mem, tlbs := after.tlbs)
  }

  lemma PageArithmetic(ppn: nat, off: nat, n: nat, a: nat)
    requires off + n <= 4096
    ensures (ppn * 4096 + off) / 4096 == ppn || (n == 0 && off == 4096)
    ensures ppn * 4096 + off <= a < ppn * 4096 + off + n <==> a / 4096 == ppn && off <= a % 4096 < off + n
    ensures a / 4096 == ppn ==> a - ppn * 4096 == a % 4096
  {
  }

  lemma OverlayAt(page: seq<byte>, off: nat, bytes: seq<byte>, k: nat)
    requires off + |bytes| <= |page| && k < |page|
    ensures Overlay(page, off, bytes)[k] == if off <= k < off + |bytes| then bytes[k - off] else page[k]
  {
  }

  /** Bytes laid over a page of memory, which is allocated if need be. */
  lemma OverlayWrites(mem: Memory, ppn: nat, off: nat, bytes: seq<byte>)
    requires (forall p | p in mem :: |mem[p]| == PGSIZE) && off < 4096 && off + |bytes| <= 4096
    ensures var touched := Touch(mem, ppn);
            && |touched[ppn]| == PGSIZE
            && WrittenAt(mem, touched[ppn := Overlay(touched[ppn], off, bytes)], ppn * 4096 + off, bytes)
  {
    var touched, target := Touch(mem, ppn), ppn * 4096 + off;
    var after := touched[ppn := Overlay(touched[ppn], off, bytes)];
    PageArithmetic(ppn, off, |bytes|, 0);
    forall a: nat ensures ByteAt(after, a) == ByteThen(mem, target, bytes, a) {
      PageArithmetic(ppn, off, |bytes|, a);
      if a / 4096 == ppn {
        OverlayAt(touched[ppn], off, bytes, a % 4096);
      }
    }
  }

  lemma StoredMemory(mem: Memory, tlb: Tlb, dramPages: nat, q: StoreReq)
    requires TlbWellFormed(mem, tlb) && (forall p | p in mem :: |mem[p]| == PGSIZE) && q.Intrapage()
    ensures StoresBytes(mem, tlb, dramPages, q, StoreMemory(mem, tlb, dramPages, q))
  {
    if q.actuallyStore && SlowHit(tlb, q) {
      OverlayWrites(mem, tlb[q.Index()].ppn, q.Offset(), q.bytes);
    } else if q.actuallyStore && q.Ppn() < dramPages {
      assert q.paddr == q.Ppn() * 4096 + q.Offset();
      OverlayWrites(mem, q.Ppn(), q.Offset(), q.bytes);
    }
  }

  lemma StoredEntry(tlb: Tlb, dramPages: nat, q: StoreReq)
    requires |tlb| == TLB_ENTRIES
    ensures LeavesEntry(tlb, dramPages, q, StoreTlb(tlb, dramPages, q))
  {
  }

  /** The model's store does this. */
  lemma StoredBytes<A>(m: Machine<A>, cpu: nat, q: StoreReq)
    requires WellFormed(m) && cpu < |m.tlbs| && q.Intrapage()
    ensures DoesStore(m, cpu, q, Stored(m, cpu, q))
  {
    StoredMemory(m.mem, m.tlbs[cpu], m.dramPages, q);
    StoredEntry(m.tlbs[cpu], m.dramPages, q);
  }

  /** An address that is touched gets a zero page if it has none, and nothing else changes. */
  lemma TouchedBytes(mem: Memory, ppn: nat)
    requires forall p | p in mem :: |mem[p]| == PGSIZE
    ensures Touch(mem, ppn).Keys == mem.Keys + {ppn}
    ensures forall a: nat ::
      ByteAt(Touch(mem, ppn), a) == if a / 4096 == ppn && ppn !in mem then Some(0) else ByteAt(mem, a)
  {
  }

  datatype Op<A> =
    | Store(cpu: nat, req: StoreReq)
    | TouchPage(ppn: nat)
    | Evict(cpu: nat, index: nat)
    | SetArch(arch: A)
    | SpuriousCheckpoint
    | Serialize
    | Deserialize

  /** At most one restore per snapshot: the in-place mode forgets how to restore after the first. */
  ghost predicate Enabled<A>(m: Machine<A>, op: Op<A>) {
    match op
    case Store(cpu, r) => cpu < |m.tlbs| && r.Intrapage()
    case TouchPage(ppn) => ppn < m.dramPages
    case Evict(cpu, index) => cpu < |m.tlbs| && index < TLB_ENTRIES
    case Deserialize => m.armed
    case _ => true
  }

  ghost function Step<A>(m: Machine<A>, op: Op<A>): (r: Machine<A>)
    requires WellFormed(m) && Enabled(m, op)
  {
    match op
    case Store(cpu, q) => Stored(m, cpu, q)
    case TouchPage(ppn) => m.(mem := Touch(m.mem, ppn))
    case Evict(cpu, index) => WithSlot(m, cpu, index, Invalid)
    case SetArch(a) => m.(arch := a)
    case SpuriousCheckpoint => m
    case Serialize =>
      m.(tlbs := FlushAll(m.tlbs), snap := Snapshot(m.mem, m.arch), armed := true)
    case Deserialize =>
      m.(tlbs := FlushAll(m.tlbs), mem := m.snap.mem, arch := m.snap.arch, armed := false)
  }

  ghost predicate SnapshotOk<A>(m: Machine<A>) {
    m.armed ==> forall p | p in m.snap.mem :: |m.snap.mem[p]| == PGSIZE
  }

  lemma StepWellFormed<A>(m: Machine<A>, op: Op<A>)
    requires WellFormed(m) && SnapshotOk(m) && Enabled(m, op)
    ensures WellFormed(Step(m, op)) && SnapshotOk(Step(m, op))
    ensures |Step(m, op).tlbs| == |m.tlbs|
  {
    var n := Step(m, op);
    forall i | 0 <= i < |n.tlbs| ensures TlbWellFormed(n.mem, n.tlbs[i]) {
      assert TlbWellFormed(m.mem, m.tlbs[i]);
    }
  }

  ghost predicate EnabledRun<A>(m: Machine<A>, ops: seq<Op<A>>)
    requires WellFormed(m) && SnapshotOk(m)
    decreases |ops|
  {
    ops == [] ||
    (&& Enabled(m, ops[0])
     && (StepWellFormed(m, ops[0]); EnabledRun(Step(m, ops[0]), ops[1..])))
  }

  ghost function Run<A>(m: Machine<A>, ops: seq<Op<A>>): (r: Machine<A>)
    requires WellFormed(m) && SnapshotOk(m) && EnabledRun(m, ops)
    ensures WellFormed(r) && SnapshotOk(r)
    decreases |ops|
  {
    if ops == [] then m
    else (StepWellFormed(m, ops[0]); Run(Step(m, ops[0]), ops[1..]))
  }

  /** Between a snapshot and its restore: anything but those two. */
  ghost predicate Forward<A>(ops: seq<Op<A>>) {
    forall i | 0 <= i < |ops| :: !ops[i].Serialize? && !ops[i].Deserialize?
  }

  lemma {:induction false} ForwardKeepsSnapshot<A>(m: Machine<A>, ops: seq<Op<A>>)
    requires WellFormed(m) && SnapshotOk(m) && Forward(ops) && EnabledRun(m, ops)
    ensures Run(m, ops).snap == m.snap && Run(m, ops).armed == m.armed
    ensures |Run(m, ops).tlbs| == |m.tlbs| && Run(m, ops).dramPages == m.dramPages
    decreases |ops|
  {
    if ops != [] {
      assert !ops[0].Serialize? && !ops[0].Deserialize?;
      StepWellFormed(m, ops[0]);
      forall i | 0 <= i < |ops[1..]| ensures !ops[1..][i].Serialize? && !ops[1..][i].Deserialize? {
        assert ops[1..][i] == ops[i + 1];
      }
      ForwardKeepsSnapshot(Step(m, ops[0]), ops[1..]);
    }
  }

  /** So the restore that comes after gives back what was there before. */
  lemma RestoreGivesBack<A>(m: Machine<A>, ahead: seq<Op<A>>)
    requires WellFormed(m) && SnapshotOk(m) && Forward(ahead)
    requires WellFormed(Step(m, Op.Serialize)) && SnapshotOk(Step(m, Op.Serialize))
    requires EnabledRun(Step(m, Op.Serialize), ahead)
    ensures var now := Run(Step(m, Op.Serialize), ahead);
            && Enabled(now, Op.Deserialize)
            && Step(now, Op.Deserialize).mem == m.mem && Step(now, Op.Deserialize).arch == m.arch
  {
    ForwardKeepsSnapshot(Step(m, Op.Serialize), ahead);
  }
}
