/** One process's view of MNNVL memory: the bump allocator's class attributes and, beside them, the address
    ranges the CUDA driver has reserved and mapped for this process. */
module MnnvlState {
  import opened Arithmetic

  const FABRIC_PAGE_SIZE: nat := 0x2000_0000

  /** Physical memory, named by the rank that created it and the collective open it was created for. */
  datatype Handle = Handle(rank: nat, open: nat)
  datatype Mapping = Mapping(size: nat, handle: Handle)
  datatype Allocation = Allocation(size: nat, handles: seq<Handle>, start: nat, stride: nat, offset: nat)

  datatype RankState = RankState(
    offset: nat, stride: nat, start: nat,  // current_mem_offset, current_rank_stride, current_start_address
    allocs: map<nat, Allocation>,
    refcnt: map<nat, nat>,
    reserved: map<nat, nat>,  // start of a reservation -> its length
    mapped: map<nat, Mapping>)

  const INITIAL := RankState(0, 0, 0, map[], map[], map[], map[])

  function RoundUp(size: nat, unit: nat): (r: nat)
    requires unit > 0
    ensures size <= r < size + unit && r % unit == 0
  {
    var r := (size + unit - 1) / unit * unit;
    RoundUpFacts(size, unit);
    r
  }

  lemma RoundUpFacts(size: nat, unit: nat)
    requires unit > 0
    ensures size <= (size + unit - 1) / unit * unit < size + unit
    ensures (size + unit - 1) / unit * unit % unit == 0
  {
    var q := (size + unit - 1) / unit;
    assert size + unit - 1 == q * unit + (size + unit - 1) % unit;
    ExactQuotient(q, unit);
  }

  predicate Disjoint(a: nat, aLen: nat, b: nat, bLen: nat) {
    a + aLen <= b || b + bLen <= a
  }

  /** What the driver promises of a fresh reservation. */
  ghost predicate Reservable(st: RankState, addr: nat, length: nat) {
    addr > 0 && forall r :: r in st.reserved ==> Disjoint(addr, length, r, st.reserved[r])
  }

  function SliceAt(a: Allocation, i: nat): nat {
    a.start + a.stride * i + a.offset
  }

  /** The mappings of the first `count` ranks' slices. */
  function Slices(a: Allocation, count: nat): map<nat, Mapping>
    requires count <= |a.handles|
  {
    if count == 0 then map[]
    else Slices(a, count - 1)[SliceAt(a, count - 1) := Mapping(a.size, a.handles[count - 1])]
  }

  // ----- The operations -----

  predicate NeedsRegion(st: RankState, aligned: nat) {
    st.offset + aligned > st.stride
  }

  /** Makes room: keeps the current region, or switches to a new one the driver places at `addr`. */
  function WithRegion(st: RankState, n: nat, aligned: nat, addr: nat): RankState {
    if !NeedsRegion(st, aligned) then st
    else
      var stride := RoundUp(aligned, FABRIC_PAGE_SIZE);
      st.(reserved := st.reserved[addr := stride * n], start := addr, stride := stride, offset := 0)
  }

  function Opened(st: RankState, n: nat, aligned: nat, addr: nat, handles: seq<Handle>): Allocation {
    var st1 := WithRegion(st, n, aligned, addr);
    Allocation(aligned, handles, st1.start, st1.stride, st1.offset)
  }

  /** Maps every rank's slice, then records the allocation and moves the bump offset past it. */
  function Recorded(st: RankState, n: nat, a: Allocation): RankState
    requires |a.handles| == n
  {
    st.(mapped := st.mapped + Slices(a, n),
        allocs := st.allocs[a.start + a.offset := a],
        refcnt := st.refcnt[a.start := (if a.start in st.refcnt then st.refcnt[a.start] else 0) + 1],
        offset := st.offset + a.size)
  }

  function OpenLocal(st: RankState, n: nat, aligned: nat, addr: nat, handles: seq<Handle>): RankState
    requires |handles| == n
  {
    Recorded(WithRegion(st, n, aligned, addr), n, Opened(st, n, aligned, addr, handles))
  }

  /** One reference to a region less; without references it is freed, and no longer current. */
  function Dropped(st: RankState, start: nat): RankState
    requires start in st.refcnt && st.refcnt[start] > 0
  {
    if st.refcnt[start] > 1 then st.(refcnt := st.refcnt[start := st.refcnt[start] - 1])
    else
      var freed := st.(refcnt := st.refcnt - {start}, reserved := st.reserved - {start});
      if start == st.start then freed.(start := 0, stride := 0, offset := 0) else freed
  }

  function CloseLocal(st: RankState, n: nat, ptr: nat): RankState
    requires CountsValid(st) && ptr in st.allocs && |st.allocs[ptr].handles| == n
  {
    var a := st.allocs[ptr];
    Dropped(st.(allocs := st.allocs - {ptr}, mapped := st.mapped - Slices(a, n).Keys), a.start)
  }

  // ----- The invariant -----

  function LiveIn(st: RankState, start: nat): set<nat> {
    set p | p in st.allocs && st.allocs[p].start == start
  }

  ghost predicate AllocationValid(st: RankState, n: nat, p: nat)
    requires p in st.allocs
  {
    var a := st.allocs[p];
    && p == a.start + a.offset
    && a.start in st.reserved && st.reserved[a.start] == a.stride * n
    && 0 < a.size && a.offset + a.size <= a.stride && a.stride % FABRIC_PAGE_SIZE == 0 && |a.handles| == n
    && forall i :: 0 <= i < n ==>
         SliceAt(a, i) in st.mapped && st.mapped[SliceAt(a, i)] == Mapping(a.size, a.handles[i])
  }

  ghost predicate PairValid(st: RankState, p: nat, q: nat)
    requires p in st.allocs && q in st.allocs
  {
    var a, b := st.allocs[p], st.allocs[q];
    p != q && a.start == b.start ==> a.stride == b.stride && Disjoint(a.offset, a.size, b.offset, b.size)
  }

  /** `addr` is where rank `i`'s slice of allocation `p` is mapped. */
  predicate IsSlice(st: RankState, n: nat, addr: nat, p: nat, i: nat) {
    p in st.allocs && i < n && addr == SliceAt(st.allocs[p], i)
  }

  ghost predicate Owned(st: RankState, n: nat, addr: nat) {
    exists p, i :: IsSlice(st, n, addr, p, i)
  }

  ghost predicate CurrentValid(st: RankState, n: nat) {
    && st.stride % FABRIC_PAGE_SIZE == 0
    && (st.start == 0 ==> st.stride == 0 && st.offset == 0)
    && (st.start != 0 ==>
          && st.start in st.reserved && st.reserved[st.start] == st.stride * n && st.offset <= st.stride
          && forall p :: p in st.allocs && st.allocs[p].start == st.start ==>
               st.allocs[p].stride == st.stride && st.allocs[p].offset + st.allocs[p].size <= st.offset)
  }

  ghost predicate Apart(st: RankState, r: nat, s: nat)
    requires r in st.reserved && s in st.reserved
  {
    r != s ==> Disjoint(r, st.reserved[r], s, st.reserved[s])
  }

  ghost predicate ReservationsValid(st: RankState) {
    && (forall r :: r in st.reserved ==> r > 0 && st.reserved[r] > 0)
    && (forall r, s {:trigger Apart(st, r, s)} :: r in st.reserved && s in st.reserved ==> Apart(st, r, s))
  }

  /** The reference count of a region is the number of its live allocations. */
  ghost predicate CountsValid(st: RankState) {
    && (forall p :: p in st.allocs ==> st.allocs[p].start in st.refcnt)
    && (forall s :: s in st.refcnt ==> st.refcnt[s] == |LiveIn(st, s)| > 0)
  }

  ghost predicate AllocationsValid(st: RankState, n: nat) {
    forall p {:trigger AllocationValid(st, n, p)} :: p in st.allocs ==> AllocationValid(st, n, p)
  }

  ghost predicate PairsValid(st: RankState) {
    forall p, q {:trigger PairValid(st, p, q)} :: p in st.allocs && q in st.allocs ==> PairValid(st, p, q)
  }

  ghost predicate MappedValid(st: RankState, n: nat) {
    forall addr {:trigger Owned(st, n, addr)} :: addr in st.mapped ==> Owned(st, n, addr)
  }

  ghost predicate Inv(st: RankState, n: nat) {
    && n > 0
    && ReservationsValid(st)
    && AllocationsValid(st, n)
    && PairsValid(st)
    && CountsValid(st)
    && CurrentValid(st, n)
    && MappedValid(st, n)
  }

  /** Every reservation backs at least one live allocation. */
  ghost predicate NoOrphans(st: RankState) {
    st.reserved.Keys == st.refcnt.Keys && (st.start != 0 ==> st.start in st.refcnt)
  }

  lemma InitialInv(n: nat)
    requires n > 0
    ensures Inv(INITIAL, n) && NoOrphans(INITIAL)
  {
  }

  // ----- Slices are inside their reservation and never overlap -----

  lemma NextProduct(stride: nat, i: nat)
    ensures stride * (i + 1) == stride * i + stride
  {
  }

  lemma {:induction false} NextMultiple(stride: nat, i: nat, j: nat)
    requires i < j
    ensures stride * i + stride <= stride * j
    decreases j
  {
    NextProduct(stride, j - 1);
    if i < j - 1 {
      NextMultiple(stride, i, j - 1);
    }
  }

  lemma SliceInside(a: Allocation, n: nat, i: nat)
    requires i < n && a.offset + a.size <= a.stride
    ensures a.start <= SliceAt(a, i) && SliceAt(a, i) + a.size <= a.start + a.stride * n
  {
    NextMultiple(a.stride, i, n);
  }

  lemma SameRegionSlices(a: Allocation, b: Allocation, n: nat, i: nat, j: nat)
    requires i < n && j < n && a.start == b.start && a.stride == b.stride
    requires a.offset + a.size <= a.stride && b.offset + b.size <= b.stride
    requires i != j || Disjoint(a.offset, a.size, b.offset, b.size)
    ensures Disjoint(SliceAt(a, i), a.size, SliceAt(b, j), b.size)
  {
    if i < j {
      NextMultiple(a.stride, i, j);
    } else if j < i {
      NextMultiple(a.stride, j, i);
    }
  }

  /** All live mapped ranges, of all allocations and all ranks' slices, are pairwise disjoint. */
  lemma SlicesDisjoint(st: RankState, n: nat, p: nat, i: nat, q: nat, j: nat)
    requires Inv(st, n) && p in st.allocs && q in st.allocs && i < n && j < n && (p != q || i != j)
    ensures Disjoint(SliceAt(st.allocs[p], i), st.allocs[p].size,
                     SliceAt(st.allocs[q], j), st.allocs[q].size)
  {
    var a, b := st.allocs[p], st.allocs[q];
    assert AllocationValid(st, n, p) && AllocationValid(st, n, q) && PairValid(st, p, q);
    if a.start == b.start {
      SameRegionSlices(a, b, n, i, j);
    } else {
      SliceInside(a, n, i);
      SliceInside(b, n, j);
      assert Apart(st, a.start, b.start);
    }
  }

  /** Every mapped range lies in a live reservation. */
  lemma MappedRangeReserved(st: RankState, n: nat, x: nat)
    requires Inv(st, n) && x in st.mapped
    ensures exists r :: r in st.reserved && r <= x && x + st.mapped[x].size <= r + st.reserved[r]
  {
    assert Owned(st, n, x);
    var p, i :| IsSlice(st, n, x, p, i);
    assert AllocationValid(st, n, p);
    SliceInside(st.allocs[p], n, i);
    assert st.allocs[p].start in st.reserved;
  }

  /** The driver's view: every mapped range lies in a live reservation and no two mapped ranges overlap. */
  lemma MappedRangesSafe(st: RankState, n: nat, x: nat, y: nat)
    requires Inv(st, n) && x in st.mapped && y in st.mapped && x != y
    ensures Disjoint(x, st.mapped[x].size, y, st.mapped[y].size)
    ensures exists r :: r in st.reserved && r <= x && x + st.mapped[x].size <= r + st.reserved[r]
  {
    assert Owned(st, n, x) && Owned(st, n, y);
    var p, i :| IsSlice(st, n, x, p, i);
    var q, j :| IsSlice(st, n, y, q, j);
    assert AllocationValid(st, n, p) && AllocationValid(st, n, q);
    SlicesDisjoint(st, n, p, i, q, j);
    MappedRangeReserved(st, n, x);
  }

  lemma SlicesAt(a: Allocation, count: nat, i: nat)
    requires i < count <= |a.handles| && a.stride > 0
    ensures SliceAt(a, i) in Slices(a, count) && Slices(a, count)[SliceAt(a, i)] == Mapping(a.size, a.handles[i])
  {
    if i < count - 1 {
      SlicesAt(a, count - 1, i);
      NextMultiple(a.stride, i, count - 1);
    }
  }

  lemma SlicesOnly(a: Allocation, count: nat, addr: nat)
    requires count <= |a.handles| && addr in Slices(a, count)
    ensures exists i :: 0 <= i < count && addr == SliceAt(a, i)
  {
    if addr != SliceAt(a, count - 1) {
      SlicesOnly(a, count - 1, addr);
    }
  }
}
