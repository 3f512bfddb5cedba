/** The content-addressed LFS pool of a bare: concurrent ingests, and one writer's pass over a source. */
module LfsPool {
  type Byte = bv8
  type Content = seq<Byte>
  type Oid = nat
  type Hash = Content -> Oid

  const LFS_MAX_SIZE: nat := 0x10_0000_0000  // 64 GiB

  // ----- Concurrent ingests -----

  /** A private temporary file: bytes arrive while `Copying`; `Verified` once its own bytes hashed to the oid. */
  datatype Stage = Copying | Verified
  datatype Temp = Temp(oid: Oid, content: Content, stage: Stage)
  datatype Disk = Disk(pool: map<Oid, Content>, temps: map<nat, Temp>)

  datatype Event =
    | MakeTemp(temp: nat, oid: Oid)
    | CopyChunk(temp: nat, chunk: Content)  // whatever the source file holds at that moment
    | HashTemp(temp: nat)
    | Rename(temp: nat)
    | Abandon(temp: nat)                    // an error path, or the process was killed and the file swept

  /** One step of one ingest; an event that does not fit does nothing. */
  function Step(hash: Hash, d: Disk, e: Event): Disk {
    var t := e.temp;
    match e
    case MakeTemp(_, oid) => if t in d.temps then d else d.(temps := d.temps[t := Temp(oid, [], Copying)])
    case CopyChunk(_, chunk) =>
      if t in d.temps && d.temps[t].stage.Copying? then
        d.(temps := d.temps[t := d.temps[t].(content := d.temps[t].content + chunk)])
      else d
    case HashTemp(_) =>
      if t !in d.temps then d
      else if hash(d.temps[t].content) == d.temps[t].oid then
        d.(temps := d.temps[t := d.temps[t].(stage := Verified)])
      else d.(temps := d.temps - {t})
    case Rename(_) =>
      if t in d.temps && d.temps[t].stage.Verified? then
        Disk(d.pool[d.temps[t].oid := d.temps[t].content], d.temps - {t})
      else d
    case Abandon(_) => d.(temps := d.temps - {t})
  }

  function Run(hash: Hash, d: Disk, es: seq<Event>): Disk
    decreases |es|
  {
    if es == [] then d else Run(hash, Step(hash, d, es[0]), es[1..])
  }

  /** Every visible file hashes to its name, and so does every temp that is about to be renamed. */
  ghost predicate Addressed(hash: Hash, d: Disk) {
    && (forall oid :: oid in d.pool ==> hash(d.pool[oid]) == oid)
    && (forall t :: t in d.temps && d.temps[t].stage.Verified? ==> hash(d.temps[t].content) == d.temps[t].oid)
  }

  ghost predicate Collision(hash: Hash, a: Content, b: Content) {
    a != b && hash(a) == hash(b)
  }

  /** `e` is kept as it was, or its replacement collides with it. */
  ghost predicate Kept(hash: Hash, before: map<Oid, Content>, after: map<Oid, Content>, oid: Oid)
    requires oid in before
  {
    oid in after && (after[oid] == before[oid] || Collision(hash, before[oid], after[oid]))
  }

  lemma StepKeepsAddressed(hash: Hash, d: Disk, e: Event)
    requires Addressed(hash, d)
    ensures Addressed(hash, Step(hash, d, e))
    ensures forall oid :: oid in d.pool ==> oid in Step(hash, d, e).pool
  {
  }

  /** Over every interleaving of ingests, and of sources that change while they are copied: a file visible at
      pool path `<oid>` hashes to `<oid>`, no entry is ever lost, and without a hash collision no entry's
      bytes ever change. */
  lemma {:induction false} PoolStaysAddressed(hash: Hash, d: Disk, es: seq<Event>)
    requires Addressed(hash, d)
    ensures Addressed(hash, Run(hash, d, es))
    ensures forall oid {:trigger Kept(hash, d.pool, Run(hash, d, es).pool, oid)} :: oid in d.pool ==>
              Kept(hash, d.pool, Run(hash, d, es).pool, oid)
    decreases |es|
  {
    if es != [] {
      var d1 := Step(hash, d, es[0]);
      StepKeepsAddressed(hash, d, es[0]);
      PoolStaysAddressed(hash, d1, es[1..]);
      var last := Run(hash, d, es);
      forall oid | oid in d.pool ensures Kept(hash, d.pool, last.pool, oid) {
        assert oid in d1.pool && Kept(hash, d1.pool, last.pool, oid);
        assert hash(last.pool[oid]) == oid == hash(d.pool[oid]);
      }
    }
  }

  // ----- A good copy becomes visible -----

  /** No event of this run is about temporary file `t`. */
  predicate Leaves(es: seq<Event>, t: nat) {
    forall i :: 0 <= i < |es| ==> es[i].temp != t
  }

  /** The events of this run that are about `t` only copy to it. */
  predicate OnlyCopies(es: seq<Event>, t: nat) {
    forall i :: 0 <= i < |es| && es[i].temp == t ==> es[i].CopyChunk?
  }

  /** What they copy. */
  function Copied(es: seq<Event>, t: nat): Content {
    if es == [] then []
    else (if es[0].CopyChunk? && es[0].temp == t then es[0].chunk else []) + Copied(es[1..], t)
  }

  lemma {:induction false} RunConcat(hash: Hash, d: Disk, a: seq<Event>, b: seq<Event>)
    ensures Run(hash, d, a + b) == Run(hash, Run(hash, d, a), b)
    decreases |a|
  {
    if a == [] {
      assert a + b == b;
    } else {
      assert (a + b)[1..] == a[1..] + b;
      RunConcat(hash, Step(hash, d, a[0]), a[1..], b);
    }
  }

  /** Other ingests leave a temporary file alone. */
  lemma {:induction false} OthersLeaveTemp(hash: Hash, d: Disk, es: seq<Event>, t: nat)
    requires Leaves(es, t)
    ensures t in Run(hash, d, es).temps <==> t in d.temps
    ensures t in d.temps ==> Run(hash, d, es).temps[t] == d.temps[t]
    decreases |es|
  {
    if es != [] {
      OthersLeaveTemp(hash, Step(hash, d, es[0]), es[1..], t);
    }
  }

  lemma {:induction false} CopiesAppend(hash: Hash, d: Disk, es: seq<Event>, t: nat)
    requires t in d.temps && d.temps[t].stage.Copying? && OnlyCopies(es, t)
    ensures t in Run(hash, d, es).temps
    ensures Run(hash, d, es).temps[t] == d.temps[t].(content := d.temps[t].content + Copied(es, t))
    decreases |es|
  {
    if es != [] {
      var d1 := Step(hash, d, es[0]);
      CopiesAppend(hash, d1, es[1..], t);
      assert d.temps[t].content + Copied(es, t) == d1.temps[t].content + Copied(es[1..], t);
    }
  }

  /** An ingest among any others: a temporary file is made, filled, hashed and renamed, with whatever other ingests do in
      between and afterwards. If its bytes hash to the name, the pool holds them under that name; if they do not, this
      ingest changes nothing. */
  lemma IngestOutcome(hash: Hash, d: Disk, t: nat, oid: Oid, copying: seq<Event>, waiting: seq<Event>, after: seq<Event>)
    requires Addressed(hash, d) && t !in d.temps && OnlyCopies(copying, t) && Leaves(waiting, t)
    ensures var content := Copied(copying, t);
      var hashed := Run(hash, d, [MakeTemp(t, oid)] + copying + [HashTemp(t)] + waiting);
      var renamed := Step(hash, hashed, Rename(t));
      if hash(content) == oid
      then && renamed.pool == hashed.pool[oid := content]
           && var last := Run(hash, renamed, after).pool;
              oid in last && (last[oid] == content || Collision(hash, content, last[oid]))
      else renamed == hashed
  {
    var made := Step(hash, d, MakeTemp(t, oid));
    var copied := Run(hash, made, copying);
    var checked := Step(hash, copied, HashTemp(t));
    var hashed := Run(hash, checked, waiting);
    RunsInTurn(hash, d, [MakeTemp(t, oid)], copying, [HashTemp(t)], waiting);
    CopiesAppend(hash, made, copying, t);
    assert [] + Copied(copying, t) == Copied(copying, t);
    OthersLeaveTemp(hash, checked, waiting, t);
    var renamed := Step(hash, hashed, Rename(t));
    if hash(Copied(copying, t)) == oid {
      PoolStaysAddressed(hash, d, [MakeTemp(t, oid)] + copying + [HashTemp(t)] + waiting);
      StepKeepsAddressed(hash, hashed, Rename(t));
      PoolStaysAddressed(hash, renamed, after);
      assert Kept(hash, renamed.pool, Run(hash, renamed, after).pool, oid);
    }
  }

  lemma RunsInTurn(hash: Hash, d: Disk, a: seq<Event>, b: seq<Event>, c: seq<Event>, e: seq<Event>)
    requires |a| == 1 && |c| == 1
    ensures Run(hash, d, a + b + c + e) == Run(hash, Step(hash, Run(hash, Step(hash, d, a[0]), b), c[0]), e)
  {
    RunConcat(hash, d, a + b + c, e);
    RunConcat(hash, d, a + b, c);
    RunConcat(hash, d, a, b);
    assert a[1..] == [] && c[1..] == [];
  }

  // ----- One writer's pass over a source -----

  /** A plausible LFS object of the source: its name, its bytes, and whether it can be read as a regular file. */
  datatype SrcFile = SrcFile(oid: Oid, content: Content, readable: bool)

  predicate Ingestible(hash: Hash, f: SrcFile) {
    f.readable && |f.content| <= LFS_MAX_SIZE && hash(f.content) == f.oid
  }

  predicate DistinctOids(files: seq<SrcFile>) {
    forall i, j :: 0 <= i < j < |files| ==> files[i].oid != files[j].oid
  }

  /** The number of files that are new to the pool and good, already held, and new but bad. */
  function Tally(hash: Hash, pool: map<Oid, Content>, files: seq<SrcFile>): (nat, nat, nat) {
    if files == [] then (0, 0, 0)
    else
      var f := files[|files| - 1];
      var t := Tally(hash, pool, files[..|files| - 1]);
      if f.oid in pool then (t.0, t.1 + 1, t.2)
      else if Ingestible(hash, f) then (t.0 + 1, t.1, t.2)
      else (t.0, t.1, t.2 + 1)
  }

  function Ingested(hash: Hash, pool: map<Oid, Content>, files: seq<SrcFile>): map<Oid, Content> {
    if files == [] then pool
    else
      var f := files[|files| - 1];
      var before := Ingested(hash, pool, files[..|files| - 1]);
      if f.oid !in before && Ingestible(hash, f) then before[f.oid := f.content] else before
  }

  class PoolDir {
    var pool: map<Oid, Content>
    const hash: Hash

    constructor (hash: Hash)
      ensures pool == map[] && this.hash == hash
    {
      pool := map[];
      this.hash := hash;
    }

    method IngestLfsObject(f: SrcFile) returns (ok: bool)
      modifies this
      ensures ok <==> Ingestible(hash, f)
      ensures pool == if ok then old(pool)[f.oid := f.content] else old(pool)
    {
      if !f.readable || |f.content| > LFS_MAX_SIZE {
        return false;
      }
      var staged := f.content;
      if hash(staged) != f.oid {
        return false;
      }
      pool := pool[f.oid := staged];
      return true;
    }

    method UpdateLfsPool(files: seq<SrcFile>) returns (ingested: nat, skipped: nat, failed: nat)
      requires DistinctOids(files)
      modifies this
      ensures (ingested, skipped, failed) == Tally(hash, old(pool), files)
      ensures pool == Ingested(hash, old(pool), files)
    {
      ingested, skipped, failed := 0, 0, 0;
      for i := 0 to |files|
        invariant pool == Ingested(hash, old(pool), files[..i])
        invariant (ingested, skipped, failed) == Tally(hash, old(pool), files[..i])
      {
        var f := files[i];
        assert files[..i + 1][..i] == files[..i];
        IngestedKeys(hash, old(pool), files[..i], f.oid);
        if f.oid in pool {
          skipped := skipped + 1;
          continue;
        }
        var ok := IngestLfsObject(f);
        if ok {
          ingested := ingested + 1;
        } else {
          failed := failed + 1;
        }
      }
      assert files[..|files|] == files;
    }
  }

  /** After a pass the pool holds what it held before, unchanged, and exactly the ingestible files besides, each
      new one with the bytes of such a file. */
  lemma {:induction false} IngestedKeys(hash: Hash, pool: map<Oid, Content>, files: seq<SrcFile>, oid: Oid)
    ensures var after := Ingested(hash, pool, files);
      && (oid in after <==> oid in pool || exists i :: 0 <= i < |files| && files[i].oid == oid && Ingestible(hash, files[i]))
      && (oid in pool ==> after[oid] == pool[oid])
      && (oid in after && oid !in pool ==>
            hash(after[oid]) == oid
            && exists i :: 0 <= i < |files| && files[i] == SrcFile(oid, after[oid], true))
  {
    if files != [] {
      var rest := files[..|files| - 1];
      IngestedKeys(hash, pool, rest, oid);
      if exists i :: 0 <= i < |files| && files[i].oid == oid && Ingestible(hash, files[i]) {
        var i :| 0 <= i < |files| && files[i].oid == oid && Ingestible(hash, files[i]);
        if i < |rest| { assert rest[i] == files[i]; }
      }
    }
  }

  lemma {:induction false} TallyAfter(hash: Hash, pool: map<Oid, Content>, after: map<Oid, Content>, files: seq<SrcFile>)
    requires forall i :: 0 <= i < |files| ==>
               (files[i].oid in after <==> files[i].oid in pool || Ingestible(hash, files[i]))
    ensures var first := Tally(hash, pool, files);
      Tally(hash, after, files) == (0, first.0 + first.1, first.2)
  {
    if files != [] {
      TallyAfter(hash, pool, after, files[..|files| - 1]);
    }
  }

  /** The files whose oid the pool already holds. */
  function Known(pool: map<Oid, Content>, files: seq<SrcFile>): set<Oid> {
    set i | 0 <= i < |files| && files[i].oid in pool :: files[i].oid
  }

  lemma KnownLast(pool: map<Oid, Content>, rest: seq<SrcFile>, f: SrcFile)
    requires forall i :: 0 <= i < |rest| ==> rest[i].oid != f.oid
    ensures |Known(pool, rest + [f])| == |Known(pool, rest)| + if f.oid in pool then 1 else 0
  {
    var files := rest + [f];
    forall oid ensures oid in Known(pool, files) <==> oid in Known(pool, rest) || (oid == f.oid && f.oid in pool) {
      if oid in Known(pool, rest) {
        var i :| 0 <= i < |rest| && rest[i].oid in pool && rest[i].oid == oid;
        assert files[i].oid == oid;
      }
      if oid == f.oid && f.oid in pool { assert files[|rest|].oid == oid; }
    }
    assert Known(pool, files) == Known(pool, rest) + if f.oid in pool then {f.oid} else {};
  }

  lemma AddedOne(pool: map<Oid, Content>, oid: Oid, content: Content)
    requires oid !in pool
    ensures |pool[oid := content]| == |pool| + 1
  {
    assert pool[oid := content].Keys == pool.Keys + {oid};
  }

  /** Whether the last of several different files is ingested does not depend on the others. */
  lemma IngestedLast(hash: Hash, pool: map<Oid, Content>, rest: seq<SrcFile>, f: SrcFile)
    requires forall i :: 0 <= i < |rest| ==> rest[i].oid != f.oid
    ensures |Ingested(hash, pool, rest + [f])|
      == |Ingested(hash, pool, rest)| + if f.oid !in pool && Ingestible(hash, f) then 1 else 0
  {
    assert (rest + [f])[..|rest|] == rest;
    IngestedKeys(hash, pool, rest, f.oid);
    if f.oid !in pool {
      AddedOne(Ingested(hash, pool, rest), f.oid, f.content);
    }
  }

  lemma TallyLast(hash: Hash, pool: map<Oid, Content>, rest: seq<SrcFile>, f: SrcFile)
    ensures var t, u := Tally(hash, pool, rest), Tally(hash, pool, rest + [f]);
      && u.0 == t.0 + (if f.oid !in pool && Ingestible(hash, f) then 1 else 0)
      && u.1 == t.1 + (if f.oid in pool then 1 else 0)
      && u.0 + u.1 + u.2 == t.0 + t.1 + t.2 + 1
  {
    assert (rest + [f])[..|rest|] == rest;
  }

  /** The counters add up: every file is counted once, the new entries are the ingested ones, and the skipped files are
      those the pool already held. */
  lemma {:induction false} TallyCounts(hash: Hash, pool: map<Oid, Content>, files: seq<SrcFile>)
    requires DistinctOids(files)
    ensures var t := Tally(hash, pool, files);
      && t.0 + t.1 + t.2 == |files|
      && |Ingested(hash, pool, files)| == |pool| + t.0
      && t.1 == |Known(pool, files)|
  {
    if files == [] {
      assert Known(pool, files) == {};
    } else {
      var rest, f := files[..|files| - 1], files[|files| - 1];
      assert files == rest + [f];
      TallyCounts(hash, pool, rest);
      TallyLast(hash, pool, rest, f);
      IngestedLast(hash, pool, rest, f);
      KnownLast(pool, rest, f);
    }
  }

  lemma {:induction false} IngestNothing(hash: Hash, pool: map<Oid, Content>, files: seq<SrcFile>)
    requires forall i :: 0 <= i < |files| ==> files[i].oid in pool || !Ingestible(hash, files[i])
    ensures Ingested(hash, pool, files) == pool
  {
    if files != [] {
      IngestNothing(hash, pool, files[..|files| - 1]);
    }
  }

  /** An unchanged second pass ingests nothing, skips all the pool now holds, and rejects what it rejected. */
  lemma SecondPassIsIdle(hash: Hash, pool: map<Oid, Content>, files: seq<SrcFile>)
    requires DistinctOids(files)
    ensures var first := Tally(hash, pool, files);
      var after := Ingested(hash, pool, files);
      && Tally(hash, after, files) == (0, first.0 + first.1, first.2)
      && Ingested(hash, after, files) == after
  {
    var after := Ingested(hash, pool, files);
    forall i | 0 <= i < |files|
      ensures files[i].oid in after <==> files[i].oid in pool || Ingestible(hash, files[i])
    {
      IngestedKeys(hash, pool, files, files[i].oid);
    }
    TallyAfter(hash, pool, after, files);
    IngestNothing(hash, after, files);
  }
}
