/** The MNNVL allocator of one process, updated in place by open and close. Driver calls carry the driver's
    own rules as preconditions, so the code is shown never to break them. */
module MnnvlMemory {
  import opened Wrappers
  import opened MnnvlState
  import opened MnnvlProofs

  /** Slice `i` may be mapped once the slices before it are. */
  ghost predicate SliceFree(mapped: map<nat, Mapping>, a: Allocation, i: nat)
    requires i < |a.handles|
  {
    forall x :: x in mapped + Slices(a, i) ==>
      Disjoint(SliceAt(a, i), a.size, x, (mapped + Slices(a, i))[x].size)
  }

  ghost predicate SliceFits(reserved: map<nat, nat>, a: Allocation, i: nat) {
    && a.start in reserved
    && a.start <= SliceAt(a, i) && SliceAt(a, i) + a.size <= a.start + reserved[a.start]
  }

  /** Slice `i` is still mapped once the slices before it are gone. */
  ghost predicate SliceMapped(mapped: map<nat, Mapping>, a: Allocation, i: nat)
    requires i < |a.handles|
  {
    SliceAt(a, i) in mapped && mapped[SliceAt(a, i)].size == a.size && SliceAt(a, i) !in Slices(a, i)
  }

  ghost predicate SlicesMappable(mapped: map<nat, Mapping>, reserved: map<nat, nat>, a: Allocation) {
    && (forall i {:trigger SliceFree(mapped, a, i)} :: 0 <= i < |a.handles| ==> SliceFree(mapped, a, i))
    && (forall i {:trigger SliceFits(reserved, a, i)} :: 0 <= i < |a.handles| ==> SliceFits(reserved, a, i))
  }

  ghost predicate SlicesMapped(mapped: map<nat, Mapping>, a: Allocation) {
    forall i {:trigger SliceMapped(mapped, a, i)} :: 0 <= i < |a.handles| ==> SliceMapped(mapped, a, i)
  }

  /** Closing breaks no driver rule: the slices are mapped, and a region about to be freed is empty by then. */
  ghost predicate SafeToClose(st: RankState, n: nat, p: nat) {
    && p in st.allocs
    && var a := st.allocs[p];
       && |a.handles| == n && SlicesMapped(st.mapped, a)
       && a.start in st.refcnt && st.refcnt[a.start] > 0
       && a.start in st.reserved && st.reserved[a.start] == n * a.stride
       && (st.refcnt[a.start] == 1 ==> forall x :: x in st.mapped - Slices(a, n).Keys ==>
             Disjoint(a.start, n * a.stride, x, st.mapped[x].size))
  }

  lemma UnmapStep(mapped: map<nat, Mapping>, a: Allocation, i: nat)
    requires i < |a.handles|
    ensures mapped - Slices(a, i).Keys - {SliceAt(a, i)} == mapped - Slices(a, i + 1).Keys
  {
    assert Slices(a, i + 1).Keys == Slices(a, i).Keys + {SliceAt(a, i)};
  }

  lemma NewSliceFree(st: RankState, n: nat, a: Allocation, i: nat, x: nat)
    requires ReadyToOpen(st, n, a) && i < n && x in st.mapped + Slices(a, i)
    ensures Disjoint(SliceAt(a, i), a.size, x, (st.mapped + Slices(a, i))[x].size)
  {
    if x in Slices(a, i) {
      SlicesOnly(a, i, x);
      var j :| 0 <= j < i && x == SliceAt(a, j);
      SlicesAt(a, i, j);
      SameRegionSlices(a, a, n, i, j);
    } else {
      assert Owned(st, n, x);
      var q, j :| IsSlice(st, n, x, q, j);
      assert AllocationValid(st, n, q);
      NewSliceDisjoint(st, n, a, i, q, j);
    }
  }

  lemma SliceStillMapped(st: RankState, n: nat, p: nat, i: nat)
    requires Inv(st, n) && p in st.allocs && i < n && |st.allocs[p].handles| == n
    ensures SliceMapped(st.mapped, st.allocs[p], i)
  {
    var a := st.allocs[p];
    assert AllocationValid(st, n, p);
    if SliceAt(a, i) in Slices(a, i) {
      SlicesOnly(a, i, SliceAt(a, i));
      var j :| 0 <= j < i && SliceAt(a, i) == SliceAt(a, j);
      SlicesDisjoint(st, n, p, i, p, j);
    }
  }

  /** Once the last allocation of a region is unmapped, nothing mapped is left in the region. */
  lemma RegionEmptied(st: RankState, n: nat, p: nat, x: nat)
    requires Inv(st, n) && p in st.allocs && |st.allocs[p].handles| == n
    requires st.refcnt[st.allocs[p].start] == 1
    requires x in st.mapped && x !in Slices(st.allocs[p], n)
    ensures var a := st.allocs[p]; Disjoint(a.start, n * a.stride, x, st.mapped[x].size)
  {
    assert Owned(st, n, x);
    var q, j :| IsSlice(st, n, x, q, j);
    assert AllocationValid(st, n, p) && AllocationValid(st, n, q);
    if q == p { SlicesAt(st.allocs[p], n, j); }
    CountPositive(st, n, p);
    assert q in LiveIn(st, st.allocs[q].start);
    SliceInside(st.allocs[q], n, j);
    assert Apart(st, st.allocs[p].start, st.allocs[q].start);
  }

  class MnnvlProcess {
    var current_mem_offset: nat
    var current_rank_stride: nat
    var current_start_address: nat
    var allocated_map: map<nat, Allocation>
    var address_refcnt: map<nat, nat>
    var reserved: map<nat, nat>     // kept by the driver
    var mapped: map<nat, Mapping>   // kept by the driver
    const commSize: nat

    ghost function Contents(): RankState
      reads this
    {
      RankState(current_mem_offset, current_rank_stride, current_start_address,
                allocated_map, address_refcnt, reserved, mapped)
    }

    constructor (commSize: nat)
      requires commSize > 0
      ensures this.commSize == commSize && Contents() == INITIAL && Inv(Contents(), commSize)
    {
      current_mem_offset, current_rank_stride, current_start_address := 0, 0, 0;
      allocated_map, address_refcnt, reserved, mapped := map[], map[], map[], map[];
      this.commSize := commSize;
      new;
      InitialInv(commSize);
    }

    // ----- Driver calls -----

    method MemAddressReserve(length: nat, addr: nat)
      requires Reservable(Contents(), addr, length)
      modifies this`reserved
      ensures reserved == old(reserved)[addr := length]
    {
      reserved := reserved[addr := length];
    }

    method MemMap(addr: nat, size: nat, handle: Handle)
      requires exists r :: r in reserved && r <= addr && addr + size <= r + reserved[r]
      requires forall x :: x in mapped ==> Disjoint(addr, size, x, mapped[x].size)
      modifies this`mapped
      ensures mapped == old(mapped)[addr := Mapping(size, handle)]
    {
      mapped := mapped[addr := Mapping(size, handle)];
    }

    method MemUnmap(addr: nat, size: nat)
      requires addr in mapped && mapped[addr].size == size
      modifies this`mapped
      ensures mapped == old(mapped) - {addr}
    {
      mapped := mapped - {addr};
    }

    method MemAddressFree(addr: nat, length: nat)
      requires addr in reserved && reserved[addr] == length
      requires forall x :: x in mapped ==> Disjoint(addr, length, x, mapped[x].size)
      modifies this`reserved
      ensures reserved == old(reserved) - {addr}
    {
      reserved := reserved - {addr};
    }

    // ----- The allocator -----

    method NewMnnvlMemoryAddress(aligned: nat, addr: nat)
      requires Reservable(Contents(), addr, RoundUp(aligned, FABRIC_PAGE_SIZE) * commSize)
      modifies this
      ensures Contents() == old(Contents()).(
                reserved := old(reserved)[addr := RoundUp(aligned, FABRIC_PAGE_SIZE) * commSize],
                start := addr, stride := RoundUp(aligned, FABRIC_PAGE_SIZE), offset := 0)
    {
      var pageCount := (aligned + FABRIC_PAGE_SIZE - 1) / FABRIC_PAGE_SIZE;
      var stride := pageCount * FABRIC_PAGE_SIZE;
      MemAddressReserve(stride * commSize, addr);
      current_start_address := addr;
      current_rank_stride := stride;
      current_mem_offset := 0;
    }

    /** Maps every rank's memory, the local one and the imported ones alike, at its slice of the region. */
    method MapSlices(aligned: nat, handles: seq<Handle>, ghost a: Allocation)
      requires a == Allocation(aligned, handles, current_start_address, current_rank_stride, current_mem_offset)
      requires |handles| == commSize && SlicesMappable(mapped, reserved, a)
      modifies this`mapped
      ensures mapped == old(mapped) + Slices(a, commSize)
    {
      for i := 0 to commSize
        invariant mapped == old(mapped) + Slices(a, i)
      {
        var rankPtr := current_start_address + current_rank_stride * i + current_mem_offset;
        assert SliceFits(reserved, a, i) && SliceFree(old(mapped), a, i);
        MemMap(rankPtr, aligned, handles[i]);
      }
    }

    /** The second half of an open: map all slices, record the allocation, advance the offset. */
    method MapAndRecord(aligned: nat, handles: seq<Handle>, ghost a: Allocation) returns (ptr: nat, stride: nat)
      requires a == Allocation(aligned, handles, current_start_address, current_rank_stride, current_mem_offset)
      requires |handles| == commSize && SlicesMappable(mapped, reserved, a)
      modifies this
      ensures Contents() == Recorded(old(Contents()), commSize, a)
      ensures ptr == a.start + a.offset && stride == a.stride
    {
      MapSlices(aligned, handles, a);
      ptr := current_start_address + current_mem_offset;
      stride := current_rank_stride;
      allocated_map := allocated_map[ptr :=
        Allocation(aligned, handles, current_start_address, current_rank_stride, current_mem_offset)];
      address_refcnt := address_refcnt[current_start_address :=
        (if current_start_address in address_refcnt then address_refcnt[current_start_address] else 0) + 1];
      current_mem_offset := current_mem_offset + aligned;
    }

    /** The first half of an open: round the size up and make sure the current region has room for it. */
    method EnsureRegion(size: nat, granularity: nat, addr: nat) returns (aligned: nat)
      requires granularity > 0 && RegionGranted(Contents(), commSize, RoundUp(size, granularity), addr)
      modifies this
      ensures aligned == RoundUp(size, granularity)
      ensures Contents() == WithRegion(old(Contents()), commSize, aligned, addr)
      ensures old(current_mem_offset) + aligned <= old(current_rank_stride) ==> Contents() == old(Contents())
      ensures old(current_mem_offset) + aligned > old(current_rank_stride) ==>
        && current_start_address == addr && current_mem_offset == 0
        && aligned <= current_rank_stride < aligned + FABRIC_PAGE_SIZE && current_rank_stride % FABRIC_PAGE_SIZE == 0
        && reserved == old(reserved)[addr := current_rank_stride * commSize]
    {
      aligned := (size + granularity - 1) / granularity * granularity;
      assert aligned == RoundUp(size, granularity);
      if current_mem_offset + aligned > current_rank_stride {
        NewMnnvlMemoryAddress(aligned, addr);
      }
    }

    /** `addr` is where the driver would place a new region; `handles` is what the exchange delivers, one per
        rank; `exchanged` is false when creating or exchanging memory fails, which happens before any mapping. */
    method OpenMnnvlMemory(size: nat, granularity: nat, addr: nat, handles: seq<Handle>, exchanged: bool)
      returns (r: Result<(nat, nat)>)
      requires granularity > 0 && |handles| == commSize && (exchanged ==> size > 0)
      requires Inv(Contents(), commSize)
      requires RegionGranted(Contents(), commSize, RoundUp(size, granularity), addr)
      modifies this
      ensures Inv(Contents(), commSize)
      ensures var aligned := RoundUp(size, granularity);
        if exchanged then
          var a := Opened(old(Contents()), commSize, aligned, addr, handles);
          && Contents() == OpenLocal(old(Contents()), commSize, aligned, addr, handles)
          && r == Ok((a.start + a.offset, a.stride)) && r.value.0 !in old(allocated_map)
        else Contents() == WithRegion(old(Contents()), commSize, aligned, addr) && r == Raised
      ensures old(current_mem_offset) + RoundUp(size, granularity) <= old(current_rank_stride) ==>
        && reserved == old(reserved)
        && current_start_address == old(current_start_address) && current_rank_stride == old(current_rank_stride)
        && (exchanged ==> r == Ok((old(current_start_address) + old(current_mem_offset), old(current_rank_stride))))
      ensures old(current_mem_offset) + RoundUp(size, granularity) > old(current_rank_stride) ==>
        && reserved == old(reserved)[addr := current_rank_stride * commSize] && current_start_address == addr
        && (exchanged ==> r == Ok((addr, current_rank_stride)))
    {
      ghost var st := Contents();
      OpenFacts(st, commSize, RoundUp(size, granularity), addr, handles);
      var aligned := EnsureRegion(size, granularity, addr);
      if !exchanged {
        return Raised;
      }
      var ptr, stride := MapAndRecord(aligned, handles, Opened(st, commSize, aligned, addr, handles));
      return Ok((ptr, stride));
    }

    method UnmapSlices(a: Allocation)
      requires |a.handles| == commSize && SlicesMapped(mapped, a)
      modifies this`mapped
      ensures mapped == old(mapped) - Slices(a, commSize).Keys
    {
      for i := 0 to commSize
        invariant mapped == old(mapped) - Slices(a, i).Keys
      {
        var rankPtr := a.start + a.stride * i + a.offset;
        assert SliceMapped(old(mapped), a, i);
        UnmapStep(old(mapped), a, i);
        MemUnmap(rankPtr, a.size);
      }
    }

    /** Drops one reference to a region; the last one frees it, and resets the current region if it was that. */
    method DropReference(a: Allocation)
      requires a.start in address_refcnt && address_refcnt[a.start] > 0
      requires address_refcnt[a.start] == 1 ==>
        && a.start in reserved && reserved[a.start] == commSize * a.stride
        && forall x :: x in mapped ==> Disjoint(a.start, commSize * a.stride, x, mapped[x].size)
      modifies this
      ensures Contents() == Dropped(old(Contents()), a.start)
    {
      address_refcnt := address_refcnt[a.start := address_refcnt[a.start] - 1];
      if address_refcnt[a.start] == 0 {
        address_refcnt := address_refcnt - {a.start};
        MemAddressFree(a.start, commSize * a.stride);
        if a.start == current_start_address {
          current_start_address := 0;
          current_rank_stride := 0;
          current_mem_offset := 0;
        }
        assert address_refcnt == old(address_refcnt) - {a.start};
      }
    }

    /** Takes one allocation apart; what it needs of the driver's state is `SafeToClose`. */
    method Release(ptr: nat)
      requires CountsValid(Contents()) && SafeToClose(Contents(), commSize, ptr)
      modifies this
      ensures Contents() == CloseLocal(old(Contents()), commSize, ptr)
    {
      var a := allocated_map[ptr];
      allocated_map := allocated_map - {ptr};
      UnmapSlices(a);
      DropReference(a);
    }

    method CloseMnnvlMemory(ptr: nat) returns (ok: bool)
      requires Inv(Contents(), commSize)
      modifies this
      ensures Inv(Contents(), commSize)
      ensures ok <==> ptr in old(allocated_map)
      ensures !ok ==> Contents() == old(Contents())
      ensures ok ==> |old(allocated_map)[ptr].handles| == commSize &&
                     Contents() == CloseLocal(old(Contents()), commSize, ptr)
    {
      if ptr !in allocated_map {
        return false;
      }
      CloseFacts(Contents(), commSize, ptr);
      Release(ptr);
      return true;
    }
  }

  lemma OpenFacts(st: RankState, n: nat, aligned: nat, addr: nat, handles: seq<Handle>)
    requires Inv(st, n) && RegionGranted(st, n, aligned, addr) && |handles| == n
    ensures Inv(WithRegion(st, n, aligned, addr), n)
    ensures aligned > 0 ==>
      var a := Opened(st, n, aligned, addr, handles);
      && SlicesMappable(st.mapped, WithRegion(st, n, aligned, addr).reserved, a)
      && a.start + a.offset !in st.allocs && Inv(OpenLocal(st, n, aligned, addr, handles), n)
  {
    if aligned > 0 {
      var st1, a := WithRegion(st, n, aligned, addr), Opened(st, n, aligned, addr, handles);
      WithRegionKeepsInv(st, n, aligned, addr);
      OpenKeepsInv(st, n, aligned, addr, handles);
      assert ReadyToOpen(st1, n, a);
      forall i | 0 <= i < n ensures SliceFree(st.mapped, a, i) && SliceFits(st1.reserved, a, i) {
        forall x | x in st1.mapped + Slices(a, i)
          ensures Disjoint(SliceAt(a, i), a.size, x, (st1.mapped + Slices(a, i))[x].size)
        {
          NewSliceFree(st1, n, a, i, x);
        }
        SliceInside(a, n, i);
      }
    }
  }

  lemma CloseFacts(st: RankState, n: nat, p: nat)
    requires Inv(st, n) && p in st.allocs
    ensures SafeToClose(st, n, p) && Inv(CloseLocal(st, n, p), n)
  {
    assert AllocationValid(st, n, p);
    CloseKeepsInv(st, n, p);
    var a := st.allocs[p];
    assert n * a.stride == a.stride * n;
    forall i | 0 <= i < n ensures SliceMapped(st.mapped, a, i) {
      SliceStillMapped(st, n, p, i);
    }
    if st.refcnt[a.start] == 1 {
      forall x | x in st.mapped - Slices(a, n).Keys ensures Disjoint(a.start, n * a.stride, x, st.mapped[x].size) {
        RegionEmptied(st, n, p, x);
      }
    }
  }
}
