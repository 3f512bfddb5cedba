/** All ranks of a communicator: collective opens, local closes, and the memory objects each rank holds. */
module MnnvlCluster {
  import opened MnnvlState
  import opened MnnvlProofs

  /** What a live `MnnvlMemory` object remembers. */
  datatype Memory = Memory(ptr: nat, stride: nat, segmentSize: nat)

  /** `objects[r]` holds rank `r`'s live objects, by the number of the collective open that made them. */
  datatype Cluster = Cluster(granularity: nat, ranks: seq<RankState>, objects: seq<map<nat, Memory>>, opens: nat)

  datatype Event =
    | Open(sizes: seq<nat>, addrs: seq<nat>, exchanged: seq<bool>)  // one entry per rank
    | Close(rank: nat, open: nat)

  /** The all-gather delivers, to every rank, the memory each rank created for this open. */
  function Gathered(n: nat, open: nat): seq<Handle> {
    seq(n, i requires 0 <= i < n => Handle(i, open))
  }

  predicate AllEqual(sizes: seq<nat>) {
    forall i, j :: 0 <= i < |sizes| && 0 <= j < |sizes| ==> sizes[i] == sizes[j]
  }

  ghost predicate Enabled(c: Cluster, e: Event)
    requires Valid(c)
  {
    var n := |c.ranks|;
    match e
    case Open(sizes, addrs, exchanged) =>
      && |sizes| == |addrs| == |exchanged| == n
      && forall r :: 0 <= r < n ==>
           && (exchanged[r] ==> sizes[r] > 0)
           && RegionGranted(c.ranks[r], n, RoundUp(sizes[r], c.granularity), addrs[r])
    case Close(rank, open) => rank < n && open in c.objects[rank]
  }

  function OpenRank(st: RankState, n: nat, open: nat, aligned: nat, addr: nat, exchanged: bool): RankState {
    if exchanged then OpenLocal(st, n, aligned, addr, Gathered(n, open)) else WithRegion(st, n, aligned, addr)
  }

  function OpenObjects(st: RankState, objects: map<nat, Memory>, n: nat, open: nat, size: nat, aligned: nat,
                       addr: nat, exchanged: bool): map<nat, Memory>
  {
    if exchanged then
      var a := Opened(st, n, aligned, addr, Gathered(n, open));
      objects[open := Memory(a.start + a.offset, a.stride, size)]
    else objects
  }

  function Apply(c: Cluster, e: Event): Cluster
    requires Valid(c) && Enabled(c, e)
  {
    var n := |c.ranks|;
    match e
    case Open(sizes, addrs, exchanged) =>
      if !AllEqual(sizes) then c  // every rank's size check raises
      else
        Cluster(c.granularity,
                seq(n, r requires 0 <= r < n =>
                  OpenRank(c.ranks[r], n, c.opens, RoundUp(sizes[r], c.granularity), addrs[r], exchanged[r])),
                seq(n, r requires 0 <= r < n =>
                  OpenObjects(c.ranks[r], c.objects[r], n, c.opens, sizes[r], RoundUp(sizes[r], c.granularity),
                              addrs[r], exchanged[r])),
                c.opens + 1)
    case Close(rank, open) =>
      assert RankValid(c.ranks[rank], c.objects[rank], n, c.opens);
      assert ObjectValid(c.ranks[rank], n, open, c.objects[rank][open]);
      c.(ranks := c.ranks[rank := CloseLocal(c.ranks[rank], n, c.objects[rank][open].ptr)],
         objects := c.objects[rank := c.objects[rank] - {open}])
  }

  // ----- The invariant -----

  ghost predicate ObjectValid(st: RankState, n: nat, open: nat, m: Memory) {
    && m.ptr in st.allocs
    && st.allocs[m.ptr].handles == Gathered(n, open)
    && st.allocs[m.ptr].stride == m.stride
    && m.segmentSize <= st.allocs[m.ptr].size
  }

  ghost predicate HeldBy(objects: map<nat, Memory>, ptr: nat) {
    exists open :: open in objects && objects[open].ptr == ptr
  }

  /** A rank's live objects are exactly its allocations. */
  ghost predicate ObjectsValid(st: RankState, objects: map<nat, Memory>, n: nat, opens: nat) {
    && (forall open {:trigger ObjectValid(st, n, open, objects[open])} :: open in objects ==>
          ObjectValid(st, n, open, objects[open]))
    && (forall open :: open in objects ==> open < opens)
    && (forall a, b :: a in objects && b in objects && objects[a].ptr == objects[b].ptr ==> a == b)
    && (forall p {:trigger HeldBy(objects, p)} :: p in st.allocs ==> HeldBy(objects, p))
  }

  ghost predicate RankValid(st: RankState, objects: map<nat, Memory>, n: nat, opens: nat) {
    Inv(st, n) && ObjectsValid(st, objects, n, opens)
  }

  ghost predicate Valid(c: Cluster) {
    && c.granularity > 0
    && |c.ranks| == |c.objects| > 0
    && forall r {:trigger RankValid(c.ranks[r], c.objects[r], |c.ranks|, c.opens)} :: 0 <= r < |c.ranks| ==>
         RankValid(c.ranks[r], c.objects[r], |c.ranks|, c.opens)
  }

  function Initial(n: nat, granularity: nat): Cluster {
    Cluster(granularity, seq(n, _ => INITIAL), seq(n, _ => map[]), 0)
  }

  lemma InitialValid(n: nat, granularity: nat)
    requires n > 0 && granularity > 0
    ensures Valid(Initial(n, granularity))
  {
    InitialInv(n);
  }

  lemma WithRegionKeepsRankValid(st: RankState, objects: map<nat, Memory>, n: nat, opens: nat, aligned: nat, addr: nat)
    requires RankValid(st, objects, n, opens) && RegionGranted(st, n, aligned, addr)
    ensures RankValid(WithRegion(st, n, aligned, addr), objects, n, opens + 1)
  {
    var st1 := WithRegion(st, n, aligned, addr);
    if aligned > 0 { WithRegionKeepsInv(st, n, aligned, addr); }
    forall open | open in objects ensures ObjectValid(st1, n, open, objects[open]) {
      assert ObjectValid(st, n, open, objects[open]);
    }
    forall p | p in st1.allocs ensures HeldBy(objects, p) {
      assert p in st.allocs;
    }
  }

  lemma AddObject(st: RankState, st1: RankState, objects: map<nat, Memory>, n: nat, opens: nat,
                  p: nat, a: Allocation, m: Memory)
    requires ObjectsValid(st, objects, n, opens) && p !in st.allocs && st1.allocs == st.allocs[p := a]
    requires m.ptr == p && ObjectValid(st1, n, opens, m)
    ensures ObjectsValid(st1, objects[opens := m], n, opens + 1)
  {
    var objects1 := objects[opens := m];
    forall open | open in objects1 ensures ObjectValid(st1, n, open, objects1[open]) {
      if open != opens { assert ObjectValid(st, n, open, objects[open]); }
    }
    forall x, y | x in objects1 && y in objects1 && objects1[x].ptr == objects1[y].ptr ensures x == y {
      if x != opens { assert ObjectValid(st, n, x, objects[x]); }
      if y != opens { assert ObjectValid(st, n, y, objects[y]); }
    }
    forall q | q in st1.allocs ensures HeldBy(objects1, q) {
      if q == p {
        assert objects1[opens].ptr == p;
      } else {
        assert HeldBy(objects, q);
        var open :| open in objects && objects[open].ptr == q;
        assert open in objects1 && objects1[open].ptr == q;
      }
    }
  }

  lemma OpenKeepsRankValid(st: RankState, objects: map<nat, Memory>, n: nat, opens: nat,
                           size: nat, aligned: nat, addr: nat)
    requires RankValid(st, objects, n, opens) && RegionGranted(st, n, aligned, addr) && 0 < size <= aligned
    ensures RankValid(OpenRank(st, n, opens, aligned, addr, true),
                      OpenObjects(st, objects, n, opens, size, aligned, addr, true), n, opens + 1)
  {
    OpenKeepsInv(st, n, aligned, addr, Gathered(n, opens));
    OpenKeepsObjects(st, objects, n, opens, size, aligned, addr);
  }

  lemma OpenKeepsObjects(st: RankState, objects: map<nat, Memory>, n: nat, opens: nat,
                         size: nat, aligned: nat, addr: nat)
    requires ObjectsValid(st, objects, n, opens) && size <= aligned
    requires var a := Opened(st, n, aligned, addr, Gathered(n, opens)); a.start + a.offset !in st.allocs
    ensures ObjectsValid(OpenRank(st, n, opens, aligned, addr, true),
                         OpenObjects(st, objects, n, opens, size, aligned, addr, true), n, opens + 1)
  {
    var a := Opened(st, n, aligned, addr, Gathered(n, opens));
    var p := a.start + a.offset;
    AddObject(st, OpenRank(st, n, opens, aligned, addr, true), objects, n, opens, p, a, Memory(p, a.stride, size));
  }

  lemma CloseKeepsRankValid(st: RankState, objects: map<nat, Memory>, n: nat, opens: nat, open: nat)
    requires RankValid(st, objects, n, opens) && open in objects
    ensures var p := objects[open].ptr; p in st.allocs && |st.allocs[p].handles| == n
    ensures RankValid(CloseLocal(st, n, objects[open].ptr), objects - {open}, n, opens)
  {
    var p := objects[open].ptr;
    assert ObjectValid(st, n, open, objects[open]);
    CloseKeepsInv(st, n, p);
    var st1, objects1 := CloseLocal(st, n, p), objects - {open};
    assert st1.allocs == st.allocs - {p};
    forall x | x in objects1 ensures ObjectValid(st1, n, x, objects1[x]) {
      assert ObjectValid(st, n, x, objects[x]);
    }
    forall q | q in st1.allocs ensures HeldBy(objects1, q) {
      assert HeldBy(objects, q);
      var x :| x in objects && objects[x].ptr == q;
      assert x in objects1 && objects1[x].ptr == q;
    }
  }

  lemma OpenKeepsRank(c: Cluster, e: Event, r: nat)
    requires Valid(c) && Enabled(c, e) && e.Open? && AllEqual(e.sizes) && r < |c.ranks|
    ensures RankValid(Apply(c, e).ranks[r], Apply(c, e).objects[r], |c.ranks|, c.opens + 1)
  {
    var n := |c.ranks|;
    assert RankValid(c.ranks[r], c.objects[r], n, c.opens);
    var aligned := RoundUp(e.sizes[r], c.granularity);
    if e.exchanged[r] {
      OpenKeepsRankValid(c.ranks[r], c.objects[r], n, c.opens, e.sizes[r], aligned, e.addrs[r]);
    } else {
      WithRegionKeepsRankValid(c.ranks[r], c.objects[r], n, c.opens, aligned, e.addrs[r]);
    }
  }

  lemma ApplyKeepsValid(c: Cluster, e: Event)
    requires Valid(c) && Enabled(c, e)
    ensures Valid(Apply(c, e)) && |Apply(c, e).ranks| == |c.ranks|
  {
    var c1, n := Apply(c, e), |c.ranks|;
    forall r | 0 <= r < n ensures RankValid(c1.ranks[r], c1.objects[r], n, c1.opens) {
      assert RankValid(c.ranks[r], c.objects[r], n, c.opens);
      if e.Open? && AllEqual(e.sizes) {
        OpenKeepsRank(c, e, r);
      } else if e.Close? && e.rank == r {
        CloseKeepsRankValid(c.ranks[r], c.objects[r], n, c.opens, e.open);
      }
    }
  }

  // ----- Whole runs -----

  /** `n` ranks before the first open. */
  ghost function Start(n: nat, granularity: nat): (c: Cluster)
    requires n > 0 && granularity > 0
    ensures Valid(c) && |c.ranks| == n
  {
    InitialValid(n, granularity);
    Initial(n, granularity)
  }

  ghost predicate RunEnabled(c: Cluster, es: seq<Event>)
    requires Valid(c)
    decreases |es|
  {
    es == [] ||
    (Enabled(c, es[0]) && (ApplyKeepsValid(c, es[0]); RunEnabled(Apply(c, es[0]), es[1..])))
  }

  ghost function Run(c: Cluster, es: seq<Event>): (r: Cluster)
    requires Valid(c) && RunEnabled(c, es)
    ensures Valid(r) && |r.ranks| == |c.ranks|
    decreases |es|
  {
    if es == [] then c
    else
      ApplyKeepsValid(c, es[0]);
      Run(Apply(c, es[0]), es[1..])
  }

  ghost predicate SegmentBacked(c: Cluster, r: nat, open: nat, i: nat)
    requires r < |c.ranks| == |c.objects| && open in c.objects[r]
  {
    var m := c.objects[r][open];
    var segment := m.ptr + i * m.stride;
    && segment in c.ranks[r].mapped
    && c.ranks[r].mapped[segment].handle == Handle(i, open)
    && m.segmentSize <= c.ranks[r].mapped[segment].size
  }

  /** In every valid cluster, segment `i` of a live object is mapped to the memory that rank `i` created for the
      very open that made the object. */
  lemma LiveSegmentBacked(c: Cluster, r: nat, open: nat, i: nat)
    requires Valid(c) && r < |c.ranks| && i < |c.ranks| && open in c.objects[r]
    ensures SegmentBacked(c, r, open, i)
  {
    var n := |c.ranks|;
    assert RankValid(c.ranks[r], c.objects[r], n, c.opens);
    var m := c.objects[r][open];
    assert ObjectValid(c.ranks[r], n, open, m);
    assert AllocationValid(c.ranks[r], n, m.ptr);
    var a := c.ranks[r].allocs[m.ptr];
    assert SliceAt(a, i) == m.ptr + i * m.stride by { assert a.stride * i == i * a.stride; }
  }

  /** After any interleaving of collective opens and local closes, on every rank, every segment of every live
      object is backed by its own rank. */
  lemma SegmentsBackedByTheirRank(n: nat, granularity: nat, es: seq<Event>, r: nat, open: nat, i: nat)
    requires n > 0 && granularity > 0 && RunEnabled(Start(n, granularity), es)
    requires r < n && i < n && open in Run(Start(n, granularity), es).objects[r]
    ensures SegmentBacked(Run(Start(n, granularity), es), r, open, i)
  {
    LiveSegmentBacked(Run(Start(n, granularity), es), r, open, i);
  }

  /** Every open of the run succeeds on every rank. */
  predicate AllExchanged(es: seq<Event>) {
    forall i, r :: 0 <= i < |es| && es[i].Open? && 0 <= r < |es[i].exchanged| ==> es[i].exchanged[r]
  }

  lemma ApplyLeavesNoOrphans(c: Cluster, e: Event, r: nat)
    requires Valid(c) && Enabled(c, e) && r < |c.ranks| && NoOrphans(c.ranks[r])
    requires e.Open? ==> forall s :: 0 <= s < |e.exchanged| ==> e.exchanged[s]
    ensures NoOrphans(Apply(c, e).ranks[r])
  {
    var n := |c.ranks|;
    assert RankValid(c.ranks[r], c.objects[r], n, c.opens);
    if e.Open? && AllEqual(e.sizes) {
      var aligned := RoundUp(e.sizes[r], c.granularity);
      OpenKeepsInv(c.ranks[r], n, aligned, e.addrs[r], Gathered(n, c.opens));
      OpenLeavesNoOrphans(c.ranks[r], n, aligned, e.addrs[r], Gathered(n, c.opens));
    } else if e.Close? && e.rank == r {
      assert ObjectValid(c.ranks[r], n, e.open, c.objects[r][e.open]);
      CloseKeepsInv(c.ranks[r], n, c.objects[r][e.open].ptr);
    }
  }

  lemma {:induction false} RunLeavesNoOrphans(c: Cluster, es: seq<Event>, r: nat)
    requires Valid(c) && RunEnabled(c, es) && AllExchanged(es) && r < |c.ranks| && NoOrphans(c.ranks[r])
    ensures NoOrphans(Run(c, es).ranks[r])
    decreases |es|
  {
    if es != [] {
      ApplyKeepsValid(c, es[0]);
      ApplyLeavesNoOrphans(c, es[0], r);
      forall i, s | 0 <= i < |es[1..]| && es[1..][i].Open? && 0 <= s < |es[1..][i].exchanged|
        ensures es[1..][i].exchanged[s]
      {
        assert es[1..][i] == es[i + 1];
      }
      RunLeavesNoOrphans(Apply(c, es[0]), es[1..], r);
    }
  }

  lemma NothingLive(c: Cluster, r: nat)
    requires Valid(c) && r < |c.ranks| && c.objects[r] == map[]
    ensures var st := c.ranks[r];
      && st.allocs == map[] && st.mapped == map[] && st.refcnt == map[]
      && (st == INITIAL <==> NoOrphans(st))
  {
    var st := c.ranks[r];
    assert RankValid(st, c.objects[r], |c.ranks|, c.opens);
    assert forall p :: p in st.allocs ==> HeldBy(c.objects[r], p);
    assert st.allocs.Keys == {};
    AllClosedIsInitial(st, |c.ranks|);
  }
}
