/** Opening and closing keep the allocator invariant. */
module MnnvlProofs {
  import opened MnnvlState

  /** What the environment promises when an open needs a region at `addr`. */
  ghost predicate RegionGranted(st: RankState, n: nat, aligned: nat, addr: nat) {
    NeedsRegion(st, aligned) ==> Reservable(st, addr, RoundUp(aligned, FABRIC_PAGE_SIZE) * n)
  }

  /** A state that only gained one reservation, at which it now points. */
  ghost predicate Switched(st: RankState, st1: RankState, n: nat, addr: nat) {
    && st1.allocs == st.allocs && st1.refcnt == st.refcnt && st1.mapped == st.mapped
    && addr !in st.reserved && st1.reserved == st.reserved[addr := st1.stride * n]
    && st1.start == addr > 0 && st1.stride > 0 && st1.offset == 0
  }

  lemma SwitchedAllocations(st: RankState, st1: RankState, n: nat, addr: nat)
    requires Switched(st, st1, n, addr) && AllocationsValid(st, n) && PairsValid(st) && MappedValid(st, n)
    ensures AllocationsValid(st1, n) && PairsValid(st1) && MappedValid(st1, n)
    ensures forall p :: p in st1.allocs ==> st1.allocs[p].start != addr
  {
    forall p | p in st1.allocs ensures AllocationValid(st1, n, p) && st1.allocs[p].start != addr {
      assert AllocationValid(st, n, p);
    }
    forall p, q | p in st1.allocs && q in st1.allocs ensures PairValid(st1, p, q) {
      assert PairValid(st, p, q);
    }
    forall x | x in st1.mapped ensures Owned(st1, n, x) {
      assert Owned(st, n, x);
      var p, i :| IsSlice(st, n, x, p, i);
      assert IsSlice(st1, n, x, p, i);
    }
  }

  lemma SwitchedCounts(st: RankState, st1: RankState, n: nat, addr: nat)
    requires Switched(st, st1, n, addr) && CountsValid(st)
    ensures CountsValid(st1)
  {
    forall s | s in st1.refcnt ensures st1.refcnt[s] == |LiveIn(st1, s)| > 0 {
      assert LiveIn(st1, s) == LiveIn(st, s);
    }
  }

  lemma SwitchedReservations(st: RankState, st1: RankState, n: nat, addr: nat)
    requires Switched(st, st1, n, addr) && ReservationsValid(st) && n > 0
    requires Reservable(st, addr, st1.stride * n)
    ensures ReservationsValid(st1)
  {
    assert st1.stride * n > 0;
    forall r, s | r in st1.reserved && s in st1.reserved ensures Apart(st1, r, s) {
      if r != addr && s != addr { assert Apart(st, r, s); }
    }
  }

  lemma WithRegionKeepsInv(st: RankState, n: nat, aligned: nat, addr: nat)
    requires Inv(st, n) && aligned > 0 && RegionGranted(st, n, aligned, addr)
    ensures var st1 := WithRegion(st, n, aligned, addr);
      && Inv(st1, n) && st1.start != 0 && st1.offset + aligned <= st1.stride
      && (NoOrphans(st) ==> (NoOrphans(st1) <==> !NeedsRegion(st, aligned)))
  {
    var st1 := WithRegion(st, n, aligned, addr);
    if NeedsRegion(st, aligned) {
      assert st1.stride * n > 0;
      assert addr !in st.reserved;
      assert Switched(st, st1, n, addr);
      SwitchedAllocations(st, st1, n, addr);
      SwitchedCounts(st, st1, n, addr);
      SwitchedReservations(st, st1, n, addr);
      assert addr in st1.reserved.Keys;
    }
  }

  // ----- Open -----

  /** State and allocation just before the record of a new allocation is made. */
  ghost predicate ReadyToOpen(st: RankState, n: nat, a: Allocation) {
    && Inv(st, n) && |a.handles| == n && a.size > 0
    && st.start != 0 && a.start == st.start && a.stride == st.stride && a.offset == st.offset
    && a.offset + a.size <= a.stride
  }

  /** A new allocation's slices meet no mapped slice: earlier ones of the region end below the offset. */
  lemma NewSliceDisjoint(st: RankState, n: nat, a: Allocation, i: nat, q: nat, j: nat)
    requires ReadyToOpen(st, n, a) && i < n && j < n && q in st.allocs
    ensures Disjoint(SliceAt(a, i), a.size, SliceAt(st.allocs[q], j), st.allocs[q].size)
  {
    var b := st.allocs[q];
    assert AllocationValid(st, n, q);
    if b.start == a.start {
      SameRegionSlices(a, b, n, i, j);
    } else {
      SliceInside(a, n, i);
      SliceInside(b, n, j);
      assert Apart(st, a.start, b.start);
    }
  }

  lemma NewPointer(st: RankState, n: nat, a: Allocation)
    requires ReadyToOpen(st, n, a)
    ensures a.start + a.offset !in st.allocs
  {
    var p := a.start + a.offset;
    if p in st.allocs {
      assert AllocationValid(st, n, p);
      NewSliceDisjoint(st, n, a, 0, p, 0);
    }
  }

  lemma OldSlicesStay(st: RankState, n: nat, a: Allocation, q: nat)
    requires ReadyToOpen(st, n, a) && q in st.allocs
    ensures q in Recorded(st, n, a).allocs && AllocationValid(Recorded(st, n, a), n, q)
  {
    NewPointer(st, n, a);
    var st1 := Recorded(st, n, a);
    var b := st.allocs[q];
    assert AllocationValid(st, n, q);
    forall j | 0 <= j < n
      ensures SliceAt(b, j) in st1.mapped && st1.mapped[SliceAt(b, j)] == Mapping(b.size, b.handles[j])
    {
      if SliceAt(b, j) in Slices(a, n) {
        SlicesOnly(a, n, SliceAt(b, j));
        var i :| 0 <= i < n && SliceAt(b, j) == SliceAt(a, i);
        NewSliceDisjoint(st, n, a, i, q, j);
      }
    }
  }

  lemma NewSlicesThere(st: RankState, n: nat, a: Allocation)
    requires ReadyToOpen(st, n, a)
    ensures AllocationValid(Recorded(st, n, a), n, a.start + a.offset)
  {
    forall i | 0 <= i < n
      ensures SliceAt(a, i) in Slices(a, n) && Slices(a, n)[SliceAt(a, i)] == Mapping(a.size, a.handles[i])
    {
      SlicesAt(a, n, i);
    }
  }

  lemma RecordedPairs(st: RankState, n: nat, a: Allocation)
    requires ReadyToOpen(st, n, a)
    ensures var st1 := Recorded(st, n, a);
      forall p, q :: p in st1.allocs && q in st1.allocs ==> PairValid(st1, p, q)
  {
    NewPointer(st, n, a);
    var st1 := Recorded(st, n, a);
    forall p, q | p in st1.allocs && q in st1.allocs ensures PairValid(st1, p, q) {
      if p in st.allocs && q in st.allocs {
        assert PairValid(st, p, q);
      }
    }
  }

  lemma RecordedLive(st: RankState, n: nat, a: Allocation, s: nat)
    requires a.start + a.offset !in st.allocs && |a.handles| == n
    ensures LiveIn(Recorded(st, n, a), s) == LiveIn(st, s) + (if s == a.start then {a.start + a.offset} else {})
    ensures a.start + a.offset !in LiveIn(st, s)
  {
  }

  lemma RecordedCount(st: RankState, n: nat, a: Allocation, s: nat)
    requires CountsValid(st) && a.start + a.offset !in st.allocs && |a.handles| == n && s in Recorded(st, n, a).refcnt
    ensures Recorded(st, n, a).refcnt[s] == |LiveIn(Recorded(st, n, a), s)| > 0
  {
    RecordedLive(st, n, a, s);
    if s !in st.refcnt {
      assert LiveIn(st, s) == {};
    }
  }

  lemma RecordedCounts(st: RankState, n: nat, a: Allocation)
    requires CountsValid(st) && a.start + a.offset !in st.allocs && |a.handles| == n
    ensures CountsValid(Recorded(st, n, a))
    ensures Recorded(st, n, a).refcnt.Keys == st.refcnt.Keys + {a.start}
  {
    forall s | s in Recorded(st, n, a).refcnt ensures Recorded(st, n, a).refcnt[s] == |LiveIn(Recorded(st, n, a), s)| > 0 {
      RecordedCount(st, n, a, s);
    }
  }

  lemma RecordedMapped(st: RankState, n: nat, a: Allocation)
    requires MappedValid(st, n) && a.start + a.offset !in st.allocs && |a.handles| == n
    ensures MappedValid(Recorded(st, n, a), n)
  {
    var st1, p := Recorded(st, n, a), a.start + a.offset;
    forall x | x in st1.mapped ensures Owned(st1, n, x) {
      if x in Slices(a, n) {
        SlicesOnly(a, n, x);
        var i :| 0 <= i < n && x == SliceAt(a, i);
        assert IsSlice(st1, n, x, p, i);
      } else {
        assert Owned(st, n, x);
        var q, i :| IsSlice(st, n, x, q, i);
        assert IsSlice(st1, n, x, q, i);
      }
    }
  }

  lemma RecordedCurrent(st: RankState, n: nat, a: Allocation)
    requires ReadyToOpen(st, n, a)
    ensures CurrentValid(Recorded(st, n, a), n)
  {
  }

  lemma RecordedKeepsInv(st: RankState, n: nat, a: Allocation)
    requires ReadyToOpen(st, n, a)
    ensures Inv(Recorded(st, n, a), n)
  {
    var st1, p := Recorded(st, n, a), a.start + a.offset;
    NewPointer(st, n, a);
    NewSlicesThere(st, n, a);
    forall q | q in st1.allocs ensures AllocationValid(st1, n, q) {
      if q != p { OldSlicesStay(st, n, a, q); }
    }
    RecordedPairs(st, n, a);
    RecordedCounts(st, n, a);
    RecordedMapped(st, n, a);
    RecordedCurrent(st, n, a);
    forall r, s | r in st1.reserved && s in st1.reserved ensures Apart(st1, r, s) {
      assert Apart(st, r, s);
    }
  }

  lemma OpenLeavesNoOrphans(st: RankState, n: nat, aligned: nat, addr: nat, handles: seq<Handle>)
    requires CountsValid(st) && CurrentValid(st, n) && NoOrphans(st) && aligned > 0 && |handles| == n
    requires var a := Opened(st, n, aligned, addr, handles); a.start + a.offset !in st.allocs
    ensures NoOrphans(OpenLocal(st, n, aligned, addr, handles))
  {
    var st1, a := WithRegion(st, n, aligned, addr), Opened(st, n, aligned, addr, handles);
    if NeedsRegion(st, aligned) {
      assert st1.reserved.Keys == st.reserved.Keys + {addr};
    }
    assert OpenLocal(st, n, aligned, addr, handles).refcnt.Keys == st.refcnt.Keys + {a.start};
  }

  /** A successful open keeps the invariant and overwrites no map entry. */
  lemma OpenKeepsInv(st: RankState, n: nat, aligned: nat, addr: nat, handles: seq<Handle>)
    requires Inv(st, n) && aligned > 0 && RegionGranted(st, n, aligned, addr) && |handles| == n
    ensures var a := Opened(st, n, aligned, addr, handles); a.start + a.offset !in st.allocs
    ensures Inv(OpenLocal(st, n, aligned, addr, handles), n)
  {
    var a := Opened(st, n, aligned, addr, handles);
    var st1 := WithRegion(st, n, aligned, addr);
    WithRegionKeepsInv(st, n, aligned, addr);
    assert ReadyToOpen(st1, n, a);
    NewPointer(st1, n, a);
    RecordedKeepsInv(st1, n, a);
  }

  // ----- Close -----

  lemma CountPositive(st: RankState, n: nat, p: nat)
    requires Inv(st, n) && p in st.allocs
    ensures |st.allocs[p].handles| == n
    ensures st.refcnt[st.allocs[p].start] == 1 ==> LiveIn(st, st.allocs[p].start) == {p}
  {
    var live := LiveIn(st, st.allocs[p].start);
    assert AllocationValid(st, n, p);
    assert p in live;
    if |live| == 1 {
      assert |live - {p}| == 0;
    }
  }

  lemma CloseKeepsSlices(st: RankState, n: nat, p: nat, q: nat)
    requires Inv(st, n) && p in st.allocs && q in st.allocs && p != q && |st.allocs[p].handles| == n
    ensures forall j :: 0 <= j < n ==> SliceAt(st.allocs[q], j) !in Slices(st.allocs[p], n)
  {
    assert AllocationValid(st, n, p) && AllocationValid(st, n, q);
    forall j | 0 <= j < n ensures SliceAt(st.allocs[q], j) !in Slices(st.allocs[p], n) {
      if SliceAt(st.allocs[q], j) in Slices(st.allocs[p], n) {
        SlicesOnly(st.allocs[p], n, SliceAt(st.allocs[q], j));
        var i :| 0 <= i < n && SliceAt(st.allocs[q], j) == SliceAt(st.allocs[p], i);
        SlicesDisjoint(st, n, p, i, q, j);
      }
    }
  }

  lemma CloseKeepsCounts(st: RankState, n: nat, p: nat)
    requires CountsValid(st) && p in st.allocs && |st.allocs[p].handles| == n
    ensures CountsValid(CloseLocal(st, n, p))
    ensures NoOrphans(st) ==> NoOrphans(CloseLocal(st, n, p))
  {
    var st1, a := CloseLocal(st, n, p), st.allocs[p];
    assert p in LiveIn(st, a.start);
    assert LiveIn(st1, a.start) == LiveIn(st, a.start) - {p};
    forall q | q in st1.allocs ensures st1.allocs[q].start in st1.refcnt {
      if st.allocs[q].start == a.start {
        assert {p, q} <= LiveIn(st, a.start);
        assert |{p, q}| <= |LiveIn(st, a.start)| by { SubsetSize({p, q}, LiveIn(st, a.start)); }
      }
    }
    forall s | s in st1.refcnt ensures st1.refcnt[s] == |LiveIn(st1, s)| > 0 {
      if s != a.start { assert LiveIn(st1, s) == LiveIn(st, s); }
    }
  }

  lemma {:induction false} SubsetSize(x: set<nat>, y: set<nat>)
    requires x <= y
    ensures |x| <= |y|
  {
    if x != {} {
      var e :| e in x;
      SubsetSize(x - {e}, y - {e});
    }
  }

  lemma CloseKeepsMapped(st: RankState, n: nat, p: nat)
    requires MappedValid(st, n) && CountsValid(st) && p in st.allocs
    requires |st.allocs[p].handles| == n && st.allocs[p].stride > 0
    ensures MappedValid(CloseLocal(st, n, p), n)
  {
    var st1, a := CloseLocal(st, n, p), st.allocs[p];
    forall x | x in st1.mapped ensures Owned(st1, n, x) {
      assert Owned(st, n, x);
      var q, i :| IsSlice(st, n, x, q, i);
      if q == p { SlicesAt(a, n, i); }
      assert IsSlice(st1, n, x, q, i);
    }
  }

  lemma CloseKeepsAllocation(st: RankState, n: nat, p: nat, q: nat)
    requires Inv(st, n) && p in st.allocs && q in st.allocs && p != q && |st.allocs[p].handles| == n
    ensures AllocationValid(CloseLocal(st, n, p), n, q)
  {
    CountPositive(st, n, p);
    CloseKeepsSlices(st, n, p, q);
    assert AllocationValid(st, n, q);
    assert q in LiveIn(st, st.allocs[q].start);
  }

  lemma CloseKeepsCurrent(st: RankState, n: nat, p: nat)
    requires Inv(st, n) && p in st.allocs && |st.allocs[p].handles| == n
    ensures CurrentValid(CloseLocal(st, n, p), n)
  {
    CountPositive(st, n, p);
  }

  /** A close, in whatever order closes come, keeps the invariant. */
  lemma CloseKeepsInv(st: RankState, n: nat, p: nat)
    requires Inv(st, n) && p in st.allocs
    ensures |st.allocs[p].handles| == n
    ensures Inv(CloseLocal(st, n, p), n)
    ensures NoOrphans(st) ==> NoOrphans(CloseLocal(st, n, p))
  {
    CountPositive(st, n, p);
    assert AllocationValid(st, n, p);
    CloseKeepsCounts(st, n, p);
    CloseKeepsMapped(st, n, p);
    var st1 := CloseLocal(st, n, p);
    forall q | q in st1.allocs ensures AllocationValid(st1, n, q) {
      CloseKeepsAllocation(st, n, p, q);
    }
    forall q, r | q in st1.allocs && r in st1.allocs ensures PairValid(st1, q, r) {
      assert PairValid(st, q, r);
    }
    forall r, s | r in st1.reserved && s in st1.reserved ensures Apart(st1, r, s) {
      assert Apart(st, r, s);
    }
    CloseKeepsCurrent(st, n, p);
  }

  /** When nothing is allocated and no region is orphaned, the allocator is back in its initial state. */
  lemma AllClosedIsInitial(st: RankState, n: nat)
    requires Inv(st, n) && st.allocs == map[]
    ensures st.mapped == map[] && st.refcnt == map[]
    ensures st == INITIAL <==> NoOrphans(st)
  {
    assert forall x :: x in st.mapped ==> Owned(st, n, x);
    assert st.mapped.Keys == {};
    assert forall s :: s in st.refcnt ==> LiveIn(st, s) == {};
    assert st.refcnt.Keys == {};
    if NoOrphans(st) {
      assert st.reserved.Keys == {};
    }
  }
}
