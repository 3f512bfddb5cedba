/** Regions that no allocation owns: how they arise, how long they stay, and when a rank gets rid of all of them. */
module MnnvlOrphans {
  import opened MnnvlState
  import opened MnnvlProofs
  import opened MnnvlCluster

  /** A reserved region without a reference. Only the current region can still be given one. */
  predicate Orphan(st: RankState, g: nat) {
    g in st.reserved && g !in st.refcnt
  }

  predicate Lost(st: RankState, g: nat) {
    Orphan(st, g) && g != st.start
  }

  /** No orphan; only the current region is one; or some region is lost. */
  datatype Standing = Clean | Waiting | Leaking

  ghost function StandingOf(st: RankState): Standing {
    if exists g :: Lost(st, g) then Leaking else if st.start != 0 && st.start !in st.refcnt then Waiting else Clean
  }

  /** What one event does to the standing, from whether it reserves a region and whether it goes through. */
  function Next(s: Standing, reserves: bool, claims: bool): Standing {
    match s
    case Leaking => Leaking
    case Waiting => if reserves then Leaking else if claims then Clean else Waiting
    case Clean => if reserves && !claims then Waiting else Clean
  }

  lemma CountedIsReserved(st: RankState, n: nat, s: nat)
    requires Inv(st, n) && s in st.refcnt
    ensures s in st.reserved && s > 0
  {
    assert LiveIn(st, s) != {};
    var p :| p in LiveIn(st, s);
    assert AllocationValid(st, n, p);
  }

  lemma CleanMeansNoOrphans(st: RankState, n: nat)
    requires Inv(st, n)
    ensures StandingOf(st) == Clean <==> NoOrphans(st)
  {
    forall s | s in st.refcnt ensures s in st.reserved {
      CountedIsReserved(st, n, s);
    }
    if StandingOf(st) == Clean {
      forall g | g in st.reserved ensures g in st.refcnt {
        assert !Lost(st, g);
      }
    }
  }

  // ----- One rank -----

  lemma RegionStanding(st: RankState, n: nat, aligned: nat, addr: nat)
    requires Inv(st, n) && RegionGranted(st, n, aligned, addr)
    ensures StandingOf(WithRegion(st, n, aligned, addr)) == Next(StandingOf(st), NeedsRegion(st, aligned), false)
  {
    var st1 := WithRegion(st, n, aligned, addr);
    if NeedsRegion(st, aligned) {
      NewRegionIsNew(st, n, aligned, addr);
      if addr in st.refcnt { CountedIsReserved(st, n, addr); }
      forall g ensures Lost(st1, g) <==> Orphan(st, g) {
      }
      if g :| Lost(st, g) {
        assert Lost(st1, g);
      } else if st.start != 0 && st.start !in st.refcnt {
        assert Lost(st1, st.start);
      } else {
        forall g ensures !Lost(st1, g) {
          if Orphan(st, g) { assert Lost(st, g); }
        }
      }
    }
  }

  lemma NewRegionIsNew(st: RankState, n: nat, aligned: nat, addr: nat)
    requires Inv(st, n) && NeedsRegion(st, aligned) && RegionGranted(st, n, aligned, addr)
    ensures addr !in st.reserved
  {
    if aligned > 0 {
      assert RoundUp(aligned, FABRIC_PAGE_SIZE) * n > 0;
    }
  }

  lemma OpenStanding(st: RankState, n: nat, aligned: nat, addr: nat, handles: seq<Handle>)
    requires Inv(st, n) && aligned > 0 && RegionGranted(st, n, aligned, addr) && |handles| == n
    ensures StandingOf(OpenLocal(st, n, aligned, addr, handles)) == Next(StandingOf(st), NeedsRegion(st, aligned), true)
  {
    var st1, st2 := WithRegion(st, n, aligned, addr), OpenLocal(st, n, aligned, addr, handles);
    RegionStanding(st, n, aligned, addr);
    WithRegionKeepsInv(st, n, aligned, addr);
    forall g ensures Lost(st2, g) <==> Lost(st1, g) {
    }
    if g :| Lost(st1, g) {
      assert Lost(st2, g);
    }
  }

  /** A region without a reference survives a close, whichever allocation is closed. */
  lemma CloseKeepsOrphan(st: RankState, n: nat, p: nat, g: nat)
    requires Inv(st, n) && p in st.allocs && |st.allocs[p].handles| == n && Orphan(st, g)
    ensures Orphan(CloseLocal(st, n, p), g)
    ensures g == st.start <==> g == CloseLocal(st, n, p).start
  {
  }

  lemma CloseMakesNoOrphan(st: RankState, n: nat, p: nat, g: nat)
    requires Inv(st, n) && p in st.allocs && |st.allocs[p].handles| == n && Orphan(CloseLocal(st, n, p), g)
    ensures Orphan(st, g)
  {
  }

  lemma CloseStanding(st: RankState, n: nat, p: nat)
    requires Inv(st, n) && p in st.allocs && |st.allocs[p].handles| == n
    ensures StandingOf(CloseLocal(st, n, p)) == StandingOf(st)
  {
    var st1 := CloseLocal(st, n, p);
    forall g ensures Lost(st1, g) <==> Lost(st, g) {
      if Orphan(st, g) { CloseKeepsOrphan(st, n, p, g); }
      if Orphan(st1, g) { CloseMakesNoOrphan(st, n, p, g); CloseKeepsOrphan(st, n, p, g); }
    }
    if g :| Lost(st, g) {
      assert Lost(st1, g);
    } else {
      assert forall g :: !Lost(st1, g);
      CurrentOrphanStays(st, n, p);
    }
  }

  lemma CurrentOrphanStays(st: RankState, n: nat, p: nat)
    requires Inv(st, n) && p in st.allocs && |st.allocs[p].handles| == n
    ensures var st1 := CloseLocal(st, n, p);
      (st.start != 0 && st.start !in st.refcnt) <==> (st1.start != 0 && st1.start !in st1.refcnt)
  {
    if st.start != 0 && st.start !in st.refcnt {
      CloseKeepsOrphan(st, n, p, st.start);
    }
  }

  // ----- Runs -----

  /** Rank `r` reserves a region for this open. */
  predicate Reserves(c: Cluster, e: Event, r: nat)
    requires r < |c.ranks| && c.granularity > 0
  {
    e.Open? && AllEqual(e.sizes) && r < |e.sizes| && NeedsRegion(c.ranks[r], RoundUp(e.sizes[r], c.granularity))
  }

  /** The open goes through on rank `r`. */
  predicate Claims(e: Event, r: nat) {
    e.Open? && AllEqual(e.sizes) && r < |e.exchanged| && e.exchanged[r]
  }

  lemma ApplyStanding(c: Cluster, e: Event, r: nat)
    requires Valid(c) && Enabled(c, e) && r < |c.ranks|
    ensures StandingOf(Apply(c, e).ranks[r]) == Next(StandingOf(c.ranks[r]), Reserves(c, e, r), Claims(e, r))
  {
    var n := |c.ranks|;
    assert RankValid(c.ranks[r], c.objects[r], n, c.opens);
    if e.Open? && AllEqual(e.sizes) {
      var aligned := RoundUp(e.sizes[r], c.granularity);
      if e.exchanged[r] {
        OpenStanding(c.ranks[r], n, aligned, e.addrs[r], Gathered(n, c.opens));
      } else {
        RegionStanding(c.ranks[r], n, aligned, e.addrs[r]);
      }
    } else if e.Close? && e.rank == r {
      assert ObjectValid(c.ranks[r], n, e.open, c.objects[r][e.open]);
      CloseStanding(c.ranks[r], n, c.objects[r][e.open].ptr);
    }
  }

  /** The standing of rank `r` after a run, followed event by event. */
  ghost function Outlook(c: Cluster, es: seq<Event>, r: nat, s: Standing): Standing
    requires Valid(c) && RunEnabled(c, es) && r < |c.ranks|
    decreases |es|
  {
    if es == [] then s
    else
      ApplyKeepsValid(c, es[0]);
      Outlook(Apply(c, es[0]), es[1..], r, Next(s, Reserves(c, es[0], r), Claims(es[0], r)))
  }

  lemma {:induction false} RunStanding(c: Cluster, es: seq<Event>, r: nat)
    requires Valid(c) && RunEnabled(c, es) && r < |c.ranks|
    ensures StandingOf(Run(c, es).ranks[r]) == Outlook(c, es, r, StandingOf(c.ranks[r]))
    decreases |es|
  {
    if es != [] {
      ApplyKeepsValid(c, es[0]);
      ApplyStanding(c, es[0], r);
      RunStanding(Apply(c, es[0]), es[1..], r);
    }
  }

  lemma {:induction false} AllExchangedIsClean(c: Cluster, es: seq<Event>, r: nat)
    requires Valid(c) && RunEnabled(c, es) && r < |c.ranks| && AllExchanged(es)
    ensures Outlook(c, es, r, Clean) == Clean
    decreases |es|
  {
    if es != [] {
      ApplyKeepsValid(c, es[0]);
      forall i, s | 0 <= i < |es[1..]| && es[1..][i].Open? && 0 <= s < |es[1..][i].exchanged|
        ensures es[1..][i].exchanged[s]
      {
        assert es[1..][i] == es[i + 1];
      }
      AllExchangedIsClean(Apply(c, es[0]), es[1..], r);
    }
  }

  /** A rank that has closed everything, in whatever order, holds no mapping and no reference count. It is back in its
      initial state exactly if every open that failed after reserving a region was followed, before the next
      reservation, by an open that went through; in particular if no open of the run failed. */
  lemma ClosingEverythingRestores(n: nat, granularity: nat, es: seq<Event>, r: nat)
    requires n > 0 && granularity > 0 && RunEnabled(Start(n, granularity), es)
    requires r < n && Run(Start(n, granularity), es).objects[r] == map[]
    ensures var st := Run(Start(n, granularity), es).ranks[r];
      && st.allocs == map[] && st.mapped == map[] && st.refcnt == map[]
      && (st == INITIAL <==> Outlook(Start(n, granularity), es, r, Clean) == Clean)
      && (AllExchanged(es) ==> st == INITIAL)
  {
    var c := Start(n, granularity);
    var q := Run(c, es);
    NothingLive(q, r);
    assert RankValid(q.ranks[r], q.objects[r], n, q.opens);
    CleanMeansNoOrphans(q.ranks[r], n);
    InitialInv(n);
    CleanMeansNoOrphans(INITIAL, n);
    RunStanding(c, es, r);
    if AllExchanged(es) {
      AllExchangedIsClean(c, es, r);
    }
  }

  /** An open that fails before mapping orphans a region exactly when it had to reserve one. */
  lemma FailedOpenOrphans(st: RankState, n: nat, aligned: nat, addr: nat)
    requires Inv(st, n) && NoOrphans(st) && RegionGranted(st, n, aligned, addr)
    ensures NeedsRegion(st, aligned) <==> Orphan(WithRegion(st, n, aligned, addr), addr) && addr !in st.reserved
    ensures NoOrphans(WithRegion(st, n, aligned, addr)) <==> !NeedsRegion(st, aligned)
  {
    if NeedsRegion(st, aligned) {
      NewRegionIsNew(st, n, aligned, addr);
      if addr in st.refcnt { CountedIsReserved(st, n, addr); }
    }
  }

  // ----- How long an orphan stays -----

  /** The only event that gives an orphan an owner: an open that goes through and fits, while the orphan is current. */
  predicate Adopts(c: Cluster, e: Event, r: nat, g: nat)
    requires r < |c.ranks| && c.granularity > 0
  {
    Claims(e, r) && !Reserves(c, e, r) && c.ranks[r].start == g
  }

  lemma OpenKeepsOrphan(st: RankState, n: nat, aligned: nat, addr: nat, handles: seq<Handle>, exchanged: bool, g: nat)
    requires Inv(st, n) && RegionGranted(st, n, aligned, addr) && |handles| == n && Orphan(st, g)
    requires !(exchanged && !NeedsRegion(st, aligned) && st.start == g)
    ensures var st1 := if exchanged then OpenLocal(st, n, aligned, addr, handles) else WithRegion(st, n, aligned, addr);
      Orphan(st1, g) && (g != st.start ==> g != st1.start)
  {
    if NeedsRegion(st, aligned) {
      NewRegionIsNew(st, n, aligned, addr);
    }
  }

  lemma OrphanStays(c: Cluster, e: Event, r: nat, g: nat)
    requires Valid(c) && Enabled(c, e) && r < |c.ranks| && Orphan(c.ranks[r], g) && !Adopts(c, e, r, g)
    ensures Orphan(Apply(c, e).ranks[r], g)
    ensures g != c.ranks[r].start ==> g != Apply(c, e).ranks[r].start
  {
    var n := |c.ranks|;
    assert RankValid(c.ranks[r], c.objects[r], n, c.opens);
    if e.Open? && AllEqual(e.sizes) {
      OpenKeepsOrphan(c.ranks[r], n, RoundUp(e.sizes[r], c.granularity), e.addrs[r], Gathered(n, c.opens), e.exchanged[r], g);
    } else if e.Close? && e.rank == r {
      assert ObjectValid(c.ranks[r], n, e.open, c.objects[r][e.open]);
      CloseKeepsOrphan(c.ranks[r], n, c.objects[r][e.open].ptr, g);
    }
  }

  /** No event of the run gives `g` an owner. */
  ghost predicate NeverAdopted(c: Cluster, es: seq<Event>, r: nat, g: nat)
    requires Valid(c) && RunEnabled(c, es) && r < |c.ranks|
    decreases |es|
  {
    es == [] || (!Adopts(c, es[0], r, g) &&
                 (ApplyKeepsValid(c, es[0]); NeverAdopted(Apply(c, es[0]), es[1..], r, g)))
  }

  lemma {:induction false} OrphanSurvivesRun(c: Cluster, es: seq<Event>, r: nat, g: nat)
    requires Valid(c) && RunEnabled(c, es) && r < |c.ranks| && Orphan(c.ranks[r], g) && NeverAdopted(c, es, r, g)
    ensures Orphan(Run(c, es).ranks[r], g)
    decreases |es|
  {
    if es != [] {
      ApplyKeepsValid(c, es[0]);
      OrphanStays(c, es[0], r, g);
      OrphanSurvivesRun(Apply(c, es[0]), es[1..], r, g);
    }
  }

  /** A region that is neither counted nor current stays reserved through every run, whatever is opened and closed. */
  lemma {:induction false} LostForGood(c: Cluster, es: seq<Event>, r: nat, g: nat)
    requires Valid(c) && RunEnabled(c, es) && r < |c.ranks| && Lost(c.ranks[r], g)
    ensures Lost(Run(c, es).ranks[r], g)
    decreases |es|
  {
    if es != [] {
      ApplyKeepsValid(c, es[0]);
      OrphanStays(c, es[0], r, g);
      LostForGood(Apply(c, es[0]), es[1..], r, g);
    }
  }

  /** One rank, one failing open: nothing is live and the region stays reserved. */
  lemma FailedOpenLeaks()
    ensures var c, es := Start(1, 1), [Open([1], [FABRIC_PAGE_SIZE], [false])];
      && RunEnabled(c, es)
      && Run(c, es).objects[0] == map[] && Orphan(Run(c, es).ranks[0], FABRIC_PAGE_SIZE)
      && Run(c, es).ranks[0] != INITIAL
  {
    var c, e := Start(1, 1), Open([1], [FABRIC_PAGE_SIZE], [false]);
    assert c.ranks[0] == INITIAL && c.objects[0] == map[];
    assert RoundUp(1, 1) >= 1;
    assert Enabled(c, e);
    var es := [e];
    assert es[1..] == [];
    ApplyKeepsValid(c, e);
    assert RunEnabled(Apply(c, e), []);
    assert Run(c, es) == Apply(c, e);
    InitialInv(1);
    FailedOpenOrphans(INITIAL, 1, RoundUp(1, 1), FABRIC_PAGE_SIZE);
    assert NeedsRegion(INITIAL, RoundUp(1, 1));
  }

  // ----- A close in the middle of an open -----

  /** The current region still has room for the request that was found to fit. */
  predicate Roomy(st: RankState, aligned: nat) {
    st.start != 0 && st.offset + aligned <= st.stride
  }

  /** A garbage collection may close an object after the fit test of an open and before its mapping. That leaves the room
      alone exactly if the object was not the last one of the current region, so never for a region just reserved;
      otherwise the open goes on with no region at all. */
  lemma CloseInsideOpen(st: RankState, n: nat, aligned: nat, p: nat)
    requires Inv(st, n) && Roomy(st, aligned) && aligned > 0 && p in st.allocs
    ensures |st.allocs[p].handles| == n && st.allocs[p].start in st.refcnt
    ensures var st1 := CloseLocal(st, n, p);
      && Inv(st1, n)
      && (Roomy(st1, aligned) <==> !(st.allocs[p].start == st.start && st.refcnt[st.start] == 1))
      && (Roomy(st1, aligned) ==> st1.start == st.start && st1.stride == st.stride && st1.offset == st.offset)
      && (!Roomy(st1, aligned) ==> st1.start == 0 && st1.stride == 0 && st1.offset == 0)
  {
    CloseKeepsInv(st, n, p);
    assert AllocationValid(st, n, p);
  }

  /** An open that still has its room completes as if nothing had happened in between. */
  lemma InterruptedOpenKeepsInv(st: RankState, n: nat, aligned: nat, p: nat, handles: seq<Handle>)
    requires Inv(st, n) && Roomy(st, aligned) && aligned > 0 && p in st.allocs && |handles| == n
    requires |st.allocs[p].handles| == n && Roomy(CloseLocal(st, n, p), aligned)
    ensures var a := Allocation(aligned, handles, st.start, st.stride, st.offset);
      Inv(Recorded(CloseLocal(st, n, p), n, a), n)
  {
    CloseInsideOpen(st, n, aligned, p);
    RecordedKeepsInv(CloseLocal(st, n, p), n, Allocation(aligned, handles, st.start, st.stride, st.offset));
  }

  /** Without its region the open would map every slice at address 0, which no reservation covers. */
  lemma NoRegionNoReservation(st: RankState, n: nat, aligned: nat, handles: seq<Handle>, i: nat)
    requires Inv(st, n) && st.start == 0 && |handles| == n && i < n
    ensures SliceAt(Allocation(aligned, handles, st.start, st.stride, st.offset), i) == 0
    ensures forall g :: g in st.reserved ==> g > 0
  {
  }
}
