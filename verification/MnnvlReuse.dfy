/** When an open shares the current region and when it reserves a new one, for one open and for runs of them; and what
    exactly a close takes away. */
module MnnvlReuse {
  import opened MnnvlState
  import opened MnnvlProofs
  import opened MnnvlCluster

  /** The current region has this much room left. */
  predicate Room(st: RankState, aligned: nat) {
    st.start != 0 && st.offset + aligned <= st.stride
  }

  /** Only the offset may differ: the same regions are reserved and the same one is current. */
  predicate SameRegion(st: RankState, st1: RankState) {
    st1.reserved == st.reserved && st1.start == st.start && st1.stride == st.stride
  }

  /** Exactly one reservation more, of the least page multiple that holds the request on every rank; it is current. */
  predicate OneRegionMore(st: RankState, st1: RankState, n: nat, aligned: nat, addr: nat) {
    && addr !in st.reserved && st1.reserved == st.reserved[addr := st1.stride * n]
    && st1.start == addr
    && aligned <= st1.stride < aligned + FABRIC_PAGE_SIZE && st1.stride % FABRIC_PAGE_SIZE == 0
  }

  lemma NewRegionIsFresh(st: RankState, n: nat, aligned: nat, addr: nat)
    requires Inv(st, n) && aligned > 0 && !Room(st, aligned) && RegionGranted(st, n, aligned, addr)
    ensures addr !in st.reserved
  {
    assert RoundUp(aligned, FABRIC_PAGE_SIZE) * n > 0;
  }

  /** A request that fits is placed in the current region, right behind what is there, and reserves nothing. */
  lemma FittingOpen(st: RankState, n: nat, open: nat, aligned: nat, addr: nat, exchanged: bool)
    requires Inv(st, n) && aligned > 0 && Room(st, aligned)
    ensures var st1 := OpenRank(st, n, open, aligned, addr, exchanged);
      && SameRegion(st, st1)
      && st1.offset == st.offset + (if exchanged then aligned else 0)
      && st1.allocs == if exchanged
                       then st.allocs[st.start + st.offset := Allocation(aligned, Gathered(n, open), st.start, st.stride, st.offset)]
                       else st.allocs
  {
  }

  /** A request that does not fit reserves exactly one region, and is placed at its start. */
  lemma OverflowingOpen(st: RankState, n: nat, open: nat, aligned: nat, addr: nat, exchanged: bool)
    requires Inv(st, n) && aligned > 0 && !Room(st, aligned) && RegionGranted(st, n, aligned, addr)
    ensures var st1 := OpenRank(st, n, open, aligned, addr, exchanged);
      && OneRegionMore(st, st1, n, aligned, addr)
      && st1.offset == (if exchanged then aligned else 0)
      && st1.allocs == if exchanged
                       then st.allocs[addr := Allocation(aligned, Gathered(n, open), addr, st1.stride, 0)]
                       else st.allocs
  {
    NewRegionIsFresh(st, n, aligned, addr);
  }

  // ----- Runs -----

  /** An open of this size, on all ranks, that goes through on rank `r`. */
  predicate Grants(e: Event, r: nat) {
    e.Open? && AllEqual(e.sizes) && r < |e.sizes| == |e.exchanged| && e.exchanged[r]
  }

  predicate AllGrant(es: seq<Event>, r: nat) {
    forall i :: 0 <= i < |es| ==> Grants(es[i], r)
  }

  /** The rounded sizes of these opens, added up. */
  function Total(granularity: nat, es: seq<Event>, r: nat): nat
    requires granularity > 0 && forall i :: 0 <= i < |es| ==> es[i].Open? && r < |es[i].sizes|
  {
    if es == [] then 0 else RoundUp(es[0].sizes[r], granularity) + Total(granularity, es[1..], r)
  }

  lemma GrantedStep(c: Cluster, e: Event, r: nat)
    requires Valid(c) && Enabled(c, e) && r < |c.ranks| && Grants(e, r)
    requires Room(c.ranks[r], RoundUp(e.sizes[r], c.granularity))
    ensures var st, st1 := c.ranks[r], Apply(c, e).ranks[r];
      && SameRegion(st, st1) && st1.offset == st.offset + RoundUp(e.sizes[r], c.granularity)
    ensures var st := c.ranks[r];
      Apply(c, e).objects[r] == c.objects[r][c.opens := Memory(st.start + st.offset, st.stride, e.sizes[r])]
  {
    assert RankValid(c.ranks[r], c.objects[r], |c.ranks|, c.opens);
    FittingOpen(c.ranks[r], |c.ranks|, c.opens, RoundUp(e.sizes[r], c.granularity), e.addrs[r], true);
  }

  /** The objects that these opens made on rank `r`, one behind the other from `at` on. */
  predicate Adjacent(granularity: nat, es: seq<Event>, r: nat, opens: nat, at: nat, stride: nat, objects: map<nat, Memory>)
    requires granularity > 0 && AllGrant(es, r)
  {
    forall k :: 0 <= k < |es| ==> PlacedAt(granularity, es, r, opens, at, stride, objects, k)
  }

  predicate PlacedAt(granularity: nat, es: seq<Event>, r: nat, opens: nat, at: nat, stride: nat, objects: map<nat, Memory>, k: nat)
    requires granularity > 0 && AllGrant(es, r) && k < |es|
  {
    && opens + k in objects
    && objects[opens + k] == Memory(at + Total(granularity, es[..k], r), stride, es[k].sizes[r])
  }

  /** Objects of earlier opens are untouched. */
  predicate KeepsOlder(before: map<nat, Memory>, after: map<nat, Memory>, opens: nat) {
    forall open :: open in before && open < opens ==> open in after && after[open] == before[open]
  }

  lemma AdjacentNext(granularity: nat, es: seq<Event>, r: nat, opens: nat, at: nat, stride: nat, objects: map<nat, Memory>)
    requires granularity > 0 && es != [] && AllGrant(es, r) && AllGrant(es[1..], r)
    requires opens in objects && objects[opens] == Memory(at, stride, es[0].sizes[r])
    requires Adjacent(granularity, es[1..], r, opens + 1, at + RoundUp(es[0].sizes[r], granularity), stride, objects)
    ensures Adjacent(granularity, es, r, opens, at, stride, objects)
  {
    forall k | 0 <= k < |es| ensures PlacedAt(granularity, es, r, opens, at, stride, objects, k) {
      if k > 0 {
        var j := k - 1;
        assert PlacedAt(granularity, es[1..], r, opens + 1, at + RoundUp(es[0].sizes[r], granularity), stride, objects, j);
        assert es[..k][1..] == es[1..][..j] && es[1..][j] == es[k];
      }
    }
  }

  /** Opens that fit together share the current region: whatever the driver would offer, nothing is reserved, and the
      objects lie one behind the other. */
  lemma {:induction false} FittingOpensShareRegion(c: Cluster, es: seq<Event>, r: nat)
    requires Valid(c) && RunEnabled(c, es) && r < |c.ranks| && AllGrant(es, r)
    requires es != [] ==> Room(c.ranks[r], Total(c.granularity, es, r))
    ensures var st, q := c.ranks[r], Run(c, es);
      && SameRegion(st, q.ranks[r]) && q.ranks[r].offset == st.offset + Total(c.granularity, es, r)
      && KeepsOlder(c.objects[r], q.objects[r], c.opens)
      && Adjacent(c.granularity, es, r, c.opens, st.start + st.offset, st.stride, q.objects[r])
    decreases |es|
  {
    if es != [] {
      var c1, rest := Apply(c, es[0]), es[1..];
      ApplyKeepsValid(c, es[0]);
      GrantedStep(c, es[0], r);
      FittingOpensShareRegion(c1, rest, r);
      var st, q := c.ranks[r], Run(c1, rest);
      assert c1.opens == c.opens + 1 && c.opens in c1.objects[r];
      AdjacentNext(c.granularity, es, r, c.opens, st.start + st.offset, st.stride, q.objects[r]);
    }
  }

  /** Ranks that ask for different sizes all raise, and nothing changes. */
  lemma UnequalSizesRefused(c: Cluster, e: Event, r: nat, s: nat)
    requires Valid(c) && Enabled(c, e) && e.Open? && r < |e.sizes| && s < |e.sizes| && e.sizes[r] != e.sizes[s]
    ensures Apply(c, e) == c
  {
  }

  // ----- Closing -----

  /** Some other live allocation is in the same region. */
  ghost predicate SharesRegion(st: RankState, p: nat)
    requires p in st.allocs
  {
    exists q :: q in st.allocs && q != p && st.allocs[q].start == st.allocs[p].start
  }

  lemma LastOfRegion(st: RankState, n: nat, p: nat)
    requires Inv(st, n) && p in st.allocs
    ensures st.allocs[p].start in st.refcnt
    ensures st.refcnt[st.allocs[p].start] == 1 <==> !SharesRegion(st, p)
  {
    var start := st.allocs[p].start;
    var live := LiveIn(st, start);
    assert p in live;
    if SharesRegion(st, p) {
      var q :| q in st.allocs && q != p && st.allocs[q].start == start;
      assert {p, q} <= live && |{p, q}| == 2;
      Subset({p, q}, live);
    } else {
      assert live == {p};
    }
  }

  lemma Subset(a: set<nat>, b: set<nat>)
    requires a <= b
    ensures |a| <= |b|
  {
    assert b == a + (b - a);
  }

  /** Closing one allocation unmaps its slices and nothing else; the region is freed exactly if no other allocation is in
      it, and the allocator then has no current region if that was it. */
  lemma CloseOutcome(st: RankState, n: nat, p: nat)
    requires Inv(st, n) && p in st.allocs && |st.allocs[p].handles| == n
    ensures var st1, a := CloseLocal(st, n, p), st.allocs[p];
      && st1.allocs == st.allocs - {p}
      && (forall i :: 0 <= i < n ==> SliceAt(a, i) !in st1.mapped)
      && (forall x :: x in st1.mapped ==> x in st.mapped && st1.mapped[x] == st.mapped[x])
      && (forall q, i :: q in st1.allocs && 0 <= i < n ==> SliceAt(st.allocs[q], i) in st1.mapped)
      && (if SharesRegion(st, p) then SameRegion(st, st1) && st1.offset == st.offset
          else
            && st1.reserved == st.reserved - {a.start}
            && (if a.start == st.start then st1.start == st1.stride == st1.offset == 0
                else st1.start == st.start && st1.stride == st.stride && st1.offset == st.offset))
  {
    var st1, a := CloseLocal(st, n, p), st.allocs[p];
    LastOfRegion(st, n, p);
    CloseKeepsInv(st, n, p);
    assert AllocationValid(st, n, p);
    forall i | 0 <= i < n ensures SliceAt(a, i) !in st1.mapped {
      SlicesAt(a, n, i);
    }
    forall q, i | q in st1.allocs && 0 <= i < n ensures SliceAt(st.allocs[q], i) in st1.mapped {
      assert AllocationValid(st1, n, q);
    }
  }

  /** A close event takes away just the closed object of the closing rank. */
  lemma CloseEventOutcome(c: Cluster, rank: nat, open: nat)
    requires Valid(c) && Enabled(c, Close(rank, open))
    ensures var c1 := Apply(c, Close(rank, open));
      && c1.opens == c.opens && |c1.ranks| == |c.ranks|
      && c1.objects == c.objects[rank := c.objects[rank] - {open}]
      && c1.ranks[rank].allocs == c.ranks[rank].allocs - {c.objects[rank][open].ptr}
      && (forall r :: 0 <= r < |c.ranks| && r != rank ==> c1.ranks[r] == c.ranks[r])
  {
    assert RankValid(c.ranks[rank], c.objects[rank], |c.ranks|, c.opens);
    assert ObjectValid(c.ranks[rank], |c.ranks|, open, c.objects[rank][open]);
    CloseOutcome(c.ranks[rank], |c.ranks|, c.objects[rank][open].ptr);
  }
}
