/** From a checkpoint to the rows the engine reads: which rank and which pointers a request gets for one module of one
    layer, said of the checkpoint itself. */
module LoraBuffers {
  import opened Wrappers
  import opened LoraAdapter
  import opened LoraRegistry

  const NO_ADAPTER := "-1"
  const NO_POINTERS := Pointers(0, 0, 0)

  /** The rank the dictionaries hold for one module of one layer; none is 0. */
  function RankIn(d: Dicts, u: string, layer: nat, lora: string): nat {
    if u in d.lowRanks && layer in d.lowRanks[u] && lora in d.lowRanks[u][layer] then d.lowRanks[u][layer][lora] else 0
  }

  predicate HasPointers(d: Dicts, u: string, layer: nat, lora: string) {
    u in d.pointers && layer in d.pointers[u] && lora in d.pointers[u][layer]
  }

  /** A row that hands out exactly what the dictionaries hold: nothing for a request without an adapter or with rank 0,
      and else the rank together with its pointers. */
  predicate RowFits(d: Dicts, u: string, layer: nat, lora: string, rank: nat, ptrs: Pointers) {
    if u == NO_ADAPTER then rank == 0 && ptrs == NO_POINTERS
    else
      && u in d.lowRanks && rank == RankIn(d, u, layer, lora)
      && (rank == 0 ==> ptrs == NO_POINTERS)
      && (rank != 0 ==> HasPointers(d, u, layer, lora) && ptrs == d.pointers[u][layer][lora])
  }

  /** No such row exists: the uid is unknown, or has a rank without pointers. */
  predicate NoRow(d: Dicts, u: string, layer: nat, lora: string) {
    u != NO_ADAPTER && (u !in d.lowRanks || (RankIn(d, u, layer, lora) != 0 && !HasPointers(d, u, layer, lora)))
  }

  // ----- What a checkpoint says about one module of one layer -----

  /** The last entry for this module, if there is one. */
  function LastEntry(es: seq<Entry>, lora: string): Option<Entry> {
    if es == [] then None
    else
      var last := es[|es| - 1];
      if !last.Failing? && last.lora == lora then Some(last) else LastEntry(es[..|es| - 1], lora)
  }

  /** The same in the last layer with this index: a layer that comes again starts over. */
  function EntryFor(layers: seq<Layer>, layer: nat, lora: string): Option<Entry> {
    if layers == [] then None
    else
      var last := layers[|layers| - 1];
      if last.index == layer then LastEntry(last.entries, lora) else EntryFor(layers[..|layers| - 1], layer, lora)
  }

  /** An adapter holds for one module of one layer what this entry says. */
  predicate Holds(retain: bool, a: Adapter, layer: nat, lora: string, e: Option<Entry>) {
    match e
    case None => layer in a.ranks ==> lora !in a.ranks[layer]
    case Some(Record(_, w, _)) => HoldsMatrices(retain, a, layer, lora, w)
    case Some(Skip(_)) => layer in a.ranks && lora in a.ranks[layer] && a.ranks[layer][lora] == 0
    case Some(Failing) => false
  }

  lemma ApplyHolds(ids: map<string, nat>, retain: bool, a: Adapter, layer: nat, e: Entry, lora: string, before: Option<Entry>)
    requires Opened(a, layer) && Holds(retain, a, layer, lora, before) && Apply(ids, retain, a, layer, e).ok
    ensures Holds(retain, Apply(ids, retain, a, layer, e).adapter, layer, lora, if e.lora == lora then Some(e) else before)
  {
  }

  lemma {:induction false} ApplyAllHold(ids: map<string, nat>, retain: bool, a: Adapter, layer: nat, es: seq<Entry>, lora: string)
    requires Opened(a, layer) && a.ranks[layer] == map[] && ApplyAll(ids, retain, a, layer, es).ok
    ensures Holds(retain, ApplyAll(ids, retain, a, layer, es).adapter, layer, lora, LastEntry(es, lora))
    decreases |es|
  {
    if es != [] {
      var n := |es| - 1;
      ApplyAllHold(ids, retain, a, layer, es[..n], lora);
      ApplyHolds(ids, retain, ApplyAll(ids, retain, a, layer, es[..n]).adapter, layer, es[n], lora, LastEntry(es[..n], lora));
    }
  }

  lemma {:induction false} OtherLayerHolds(ids: map<string, nat>, retain: bool, a: Adapter, layer: nat, es: seq<Entry>,
                                           other: nat, lora: string, e: Option<Entry>)
    requires Opened(a, layer) && other != layer && Holds(retain, a, other, lora, e)
    ensures Holds(retain, ApplyAll(ids, retain, a, layer, es).adapter, other, lora, e)
    decreases |es|
  {
    if es != [] {
      OtherLayerHolds(ids, retain, a, layer, es[..|es| - 1], other, lora, e);
    }
  }

  /** After a load that went through, every module of every layer holds what the checkpoint says about it last. */
  lemma {:induction false} LoadHoldsAll(ids: map<string, nat>, retain: bool, a: Adapter, layers: seq<Layer>, layer: nat, lora: string)
    requires a.ranks == map[] && Load(ids, retain, a, layers).ok
    ensures Holds(retain, Load(ids, retain, a, layers).adapter, layer, lora, EntryFor(layers, layer, lora))
    decreases |layers|
  {
    if layers != [] {
      var n := |layers| - 1;
      var last := layers[n];
      LoadHoldsAll(ids, retain, a, layers[..n], layer, lora);
      var before := Open(Load(ids, retain, a, layers[..n]).adapter, last.index);
      if last.index == layer {
        ApplyAllHold(ids, retain, before, layer, last.entries, lora);
      } else {
        OtherLayerHolds(ids, retain, before, last.index, last.entries, layer, lora, EntryFor(layers[..n], layer, lora));
      }
    }
  }

  // ----- What the dictionaries say about a loaded uid -----

  /** The rank and, where it is not 0 and pointers are retained, the pointers that an entry stands for. */
  predicate Stands(retain: bool, d: Dicts, u: string, layer: nat, lora: string, e: Option<Entry>) {
    match e
    case Some(Record(_, w, _)) =>
      && RankIn(d, u, layer, lora) == w.rank
      && (retain ==>
            && HasPointers(d, u, layer, lora)
            && d.pointers[u][layer][lora] ==
                 Pointers(w.tIn.pointer, w.tOut.pointer, if w.magnitude.Some? then w.magnitude.value.pointer else 0))
    case _ => RankIn(d, u, layer, lora) == 0
  }

  lemma LoadOneStands(ids: map<string, nat>, retain: bool, d: Dicts, t: seq<nat>, u: string, layers: seq<Layer>, layer: nat, lora: string)
    requires LoadOne(ids, retain, d, t, u, Readable(layers)).ok
    ensures u in LoadOne(ids, retain, d, t, u, Readable(layers)).dicts.lowRanks
    ensures Stands(retain, LoadOne(ids, retain, d, t, u, Readable(layers)).dicts, u, layer, lora, EntryFor(layers, layer, lora))
  {
    LoadHoldsAll(ids, retain, Begin(d, u), layers, layer, lora);
  }

  lemma SameStands(retain: bool, d: Dicts, e: Dicts, u: string, layer: nat, lora: string, entry: Option<Entry>)
    requires Stands(retain, d, u, layer, lora, entry) && Same(d, e, u)
    ensures Stands(retain, e, u, layer, lora, entry)
  {
  }

  /** Several loads that all go through, under different uids: each uid stands for its own checkpoint. */
  lemma {:induction false} LoadEachStands(ids: map<string, nat>, retain: bool, d: Dicts, t: seq<nat>, work: seq<(string, Checkpoint)>,
                                          i: nat, layer: nat, lora: string)
    requires LoadEach(ids, retain, d, t, work).ok && Distinct(Firsts(work)) && i < |work|
    ensures work[i].1.Readable? && work[i].0 in LoadEach(ids, retain, d, t, work).dicts.lowRanks
    ensures Stands(retain, LoadEach(ids, retain, d, t, work).dicts, work[i].0, layer, lora, EntryFor(work[i].1.layers, layer, lora))
    decreases |work|
  {
    var n := |work| - 1;
    var r := LoadEach(ids, retain, d, t, work[..n]);
    if i == n {
      LoadOneStands(ids, retain, r.dicts, r.tensors, work[n].0, work[n].1.layers, layer, lora);
    } else {
      LastUid(work);
      LoadEachStands(ids, retain, d, t, work[..n], i, layer, lora);
      assert work[i].0 in Uids(work[..n]);
      LoadOneTouchesOne(ids, retain, r.dicts, r.tensors, work[n].0, work[n].1, work[i].0);
      SameStands(retain, r.dicts, LoadEach(ids, retain, d, t, work).dicts, work[i].0, layer, lora,
                 EntryFor(work[i].1.layers, layer, lora));
    }
  }

  /** What the engine gets. With device tensors retained, a row for a loaded uid has the rank that the checkpoint last
      records for this module of this layer, with the pointers of its in, out and magnitude tensors; for a module that
      is skipped or absent, and for a recorded rank of 0, it has rank 0 and no pointers. */
  lemma RowIsRecorded(ids: map<string, nat>, d: Dicts, t: seq<nat>, work: seq<(string, Checkpoint)>,
                      i: nat, layer: nat, lora: string, rank: nat, ptrs: Pointers)
    requires LoadEach(ids, true, d, t, work).ok && Distinct(Firsts(work)) && i < |work| && work[i].0 != NO_ADAPTER
    requires RowFits(LoadEach(ids, true, d, t, work).dicts, work[i].0, layer, lora, rank, ptrs)
    ensures work[i].1.Readable?
    ensures match EntryFor(work[i].1.layers, layer, lora)
      case Some(Record(_, w, _)) =>
        && rank == w.rank
        && ptrs == if rank == 0 then NO_POINTERS
                   else Pointers(w.tIn.pointer, w.tOut.pointer, if w.magnitude.Some? then w.magnitude.value.pointer else 0)
      case _ => rank == 0 && ptrs == NO_POINTERS
  {
    LoadEachStands(ids, true, d, t, work, i, layer, lora);
  }

  // ----- The rows of the tables -----

  /** The row starts with these three pieces, one behind the other, and is zero from there on. */
  predicate RowHolds(row: seq<real>, a: seq<real>, b: seq<real>, c: seq<real>) {
    && |a| + |b| + |c| <= |row|
    && row[..|a|] == a && row[|a|..|a| + |b|] == b && row[|a| + |b|..|a| + |b| + |c|] == c
    && forall i :: |a| + |b| + |c| <= i < |row| ==> row[i] == 0.0
  }

  lemma RowPieces(w: Matrices, row: seq<real>)
    requires RowOf(w) <= row && forall i :: |RowOf(w)| <= i < |row| ==> row[i] == 0.0
    ensures RowHolds(row, w.tIn.data, w.tOut.data, if w.magnitude.Some? then w.magnitude.value.data else [])
  {
    var a, b, c := w.tIn.data, w.tOut.data, if w.magnitude.Some? then w.magnitude.value.data else [];
    assert RowOf(w) == a + b + c;
    assert row == (a + b + c) + row[|a + b + c|..];
  }

  /** Row `k` of a loaded uid's tables, for the `k`-th recorded module: the in, out and magnitude data in this order,
      padded with zeros; and the module's id, the layer, the rank, and for Hugging Face whether there is a magnitude. */
  lemma TableRow(ids: map<string, nat>, d: Dicts, u: string, work: Checkpoint, k: nat)
    requires Loaded(ids, d, u, work) && k < |Records(work.layers)|
    ensures var r := Records(work.layers)[k];
      && r.entry.Record? && r.entry.lora in ids
      && k < |d.weights[u].rows| == |d.config[u].rows|
      && RowHolds(d.weights[u].rows[k], r.entry.weights.tIn.data, r.entry.weights.tOut.data,
                  if r.entry.weights.magnitude.Some? then r.entry.weights.magnitude.value.data else [])
      && d.config[u].rows[k].moduleId == ids[r.entry.lora]
      && d.config[u].rows[k].layer == r.layer
      && d.config[u].rows[k].rank == r.entry.weights.rank
      && d.config[u].rows[k].isDora == if r.entry.doraColumn then Some(r.entry.weights.magnitude.Some?) else None
  {
    var records := Records(work.layers);
    StackPads(Rows(records), k);
    RowPieces(records[k].entry.weights, Stack(Rows(records))[k]);
  }

  /** A recorded module without an id stops the load with its rank, its pointers and its weight row in place: the weight
      table is one row longer than the config table. */
  lemma UnknownIdLeavesRow(ids: map<string, nat>, retain: bool, a: Adapter, layer: nat, e: Entry)
    requires Opened(a, layer) && e.Record? && e.lora !in ids && a.weights.Filling? && a.config.Filling?
    ensures var r := Apply(ids, retain, a, layer, e);
      && !r.ok
      && HoldsMatrices(retain, r.adapter, layer, e.lora, e.weights)
      && |r.adapter.weights.rows| == |a.weights.rows| + 1 && r.adapter.config == a.config
  {
  }

  // ----- The two kinds of checkpoint -----

  predicate NamedLast(ms: seq<HfModule>, j: nat) {
    j < |ms| && forall k :: j < k < |ms| ==> ms[k].lora != ms[j].lora
  }

  predicate IndexedLast(ls: seq<HfLayer>, i: nat) {
    i < |ls| && forall k :: i < k < |ls| ==> ls[k].index != ls[i].index
  }

  lemma {:induction false} LastEntryAt(es: seq<Entry>, j: nat)
    requires j < |es| && !es[j].Failing? && forall k :: j < k < |es| ==> es[k].Failing? || es[k].lora != es[j].lora
    ensures LastEntry(es, es[j].lora) == Some(es[j])
    decreases |es|
  {
    if j < |es| - 1 {
      LastEntryAt(es[..|es| - 1], j);
    }
  }

  lemma {:induction false} EntryForAt(layers: seq<Layer>, i: nat, lora: string)
    requires i < |layers| && forall k :: i < k < |layers| ==> layers[k].index != layers[i].index
    ensures EntryFor(layers, layers[i].index, lora) == LastEntry(layers[i].entries, lora)
    decreases |layers|
  {
    if i < |layers| - 1 {
      EntryForAt(layers[..|layers| - 1], i, lora);
    }
  }

  /** A Hugging Face module of a target is recorded with its own matrices, any other is skipped. */
  lemma HfModuleEntry(target: seq<string>, d: HfDir, i: nat, j: nat)
    requires d.model.Some? && IndexedLast(d.model.value, i) && NamedLast(d.model.value[i].modules, j)
    requires var m := d.model.value[i].modules[j];
      m.lora in target ==> m.weights.Some? && (m.weights.value.rank != 0 || d.rsLora)
    ensures var l, m := d.model.value[i], d.model.value[i].modules[j];
      EntryFor(HfWork(target, d).layers, l.index, m.lora)
      == Some(if m.lora in target then Record(m.lora, m.weights.value, true) else Skip(m.lora))
  {
    var layers := HfWork(target, d).layers;
    EntryForAt(layers, i, d.model.value[i].modules[j].lora);
    LastEntryAt(layers[i].entries, j);
  }

  /** Every target module has its matrices, an id, and a rank the scale can be divided by. */
  predicate HfUsable(ids: map<string, nat>, target: seq<string>, d: HfDir) {
    && d.model.Some?
    && forall i, j :: 0 <= i < |d.model.value| && 0 <= j < |d.model.value[i].modules| ==>
         var m := d.model.value[i].modules[j];
         m.lora in target ==> m.weights.Some? && (m.weights.value.rank != 0 || d.rsLora) && m.lora in ids
  }

  /** Some module is a target. */
  predicate HfHasTarget(target: seq<string>, d: HfDir) {
    d.model.Some? && exists i, j :: 0 <= i < |d.model.value| && 0 <= j < |d.model.value[i].modules| &&
                       d.model.value[i].modules[j].lora in target
  }

  lemma {:induction false} NoRecordsOf(layer: nat, es: seq<Entry>)
    ensures RecordsOf(layer, es) == [] <==> forall j :: 0 <= j < |es| ==> !es[j].Record?
  {
    if es != [] {
      NoRecordsOf(layer, es[..|es| - 1]);
      assert es == es[..|es| - 1] + [es[|es| - 1]];
    }
  }

  lemma {:induction false} NoRecords(layers: seq<Layer>)
    ensures Records(layers) == [] <==>
      forall i, j :: 0 <= i < |layers| && 0 <= j < |layers[i].entries| ==> !layers[i].entries[j].Record?
    decreases |layers|
  {
    if layers != [] {
      var n := |layers| - 1;
      NoRecords(layers[..n]);
      NoRecordsOf(layers[n].index, layers[n].entries);
      assert layers == layers[..n] + [layers[n]];
    }
  }

  /** Loading a Hugging Face directory under a new uid goes through exactly if it is usable and has a target module. */
  lemma HfLoads(ids: map<string, nat>, retain: bool, target: seq<string>, d: Dicts, t: seq<nat>, u: string, dir: HfDir)
    requires Tidy(d) && u !in d.lowRanks
    ensures LoadOne(ids, retain, d, t, u, HfWork(target, dir)).ok <==> HfUsable(ids, target, dir) && HfHasTarget(target, dir)
  {
    LoadOneOutcome(ids, retain, d, t, u, HfWork(target, dir));
    if dir.model.Some? {
      HfLoadable(ids, target, dir);
      HfRecords(ids, target, dir);
    }
  }

  lemma HfLoadable(ids: map<string, nat>, target: seq<string>, dir: HfDir)
    requires dir.model.Some?
    ensures Loadable(ids, HfWork(target, dir).layers) <==> HfUsable(ids, target, dir)
  {
    var layers := HfWork(target, dir).layers;
    if HfUsable(ids, target, dir) {
      forall i | 0 <= i < |layers| ensures LayerLoadable(ids, layers[i].entries) {
      }
    } else {
      var i, j :| 0 <= i < |dir.model.value| && 0 <= j < |dir.model.value[i].modules| &&
        var m := dir.model.value[i].modules[j];
        !(m.lora in target ==> m.weights.Some? && (m.weights.value.rank != 0 || dir.rsLora) && m.lora in ids);
      assert !EntryLoadable(ids, layers[i].entries[j]);
      assert !LayerLoadable(ids, layers[i].entries);
    }
  }

  lemma HfRecords(ids: map<string, nat>, target: seq<string>, dir: HfDir)
    requires dir.model.Some?
    ensures HfUsable(ids, target, dir) ==> (Records(HfWork(target, dir).layers) != [] <==> HfHasTarget(target, dir))
  {
    var layers := HfWork(target, dir).layers;
    NoRecords(layers);
    if HfUsable(ids, target, dir) {
      if HfHasTarget(target, dir) {
        var i, j :| 0 <= i < |dir.model.value| && 0 <= j < |dir.model.value[i].modules| &&
          dir.model.value[i].modules[j].lora in target;
        assert layers[i].entries[j].Record?;
      }
      if Records(layers) != [] {
        var i, j :| 0 <= i < |layers| && 0 <= j < |layers[i].entries| && layers[i].entries[j].Record?;
        assert dir.model.value[i].modules[j].lora in target;
      }
    }
  }

  lemma {:induction false} LastEntryIs(es: seq<Entry>, j: nat)
    requires j < |es| && !es[j].Failing?
    requires forall k :: 0 <= k < |es| && !es[k].Failing? && es[k].lora == es[j].lora ==> es[k] == es[j]
    ensures LastEntry(es, es[j].lora) == Some(es[j])
    decreases |es|
  {
    var last := es[|es| - 1];
    if last.Failing? || last.lora != es[j].lora {
      LastEntryIs(es[..|es| - 1], j);
    }
  }

  /** A NeMo layer is recorded for its one module, without a magnitude; any other target is skipped. */
  lemma NemoModuleEntry(target: seq<string>, f: NemoFile, i: nat, lora: string)
    requires f.layers.Some? && i < |f.layers.value| && lora in target
    requires forall k :: i < k < |f.layers.value| ==> f.layers.value[k].index != f.layers.value[i].index
    requires lora == NEMO_MODULE ==> f.layers.value[i].weights.Some?
    ensures var l := f.layers.value[i];
      EntryFor(NemoWork(target, f).layers, l.index, lora)
      == Some(if lora == "attn_qkv" then Record(lora, l.weights.value.(magnitude := None), false) else Skip(lora))
  {
    var layers := NemoWork(target, f).layers;
    var j :| 0 <= j < |target| && target[j] == lora;
    EntryForAt(layers, i, lora);
    LastEntryIs(layers[i].entries, j);
  }

  /** Loading a NeMo file under a new uid goes through exactly if it has layers, its module is a target with an id, and
      no layer lacks a matrix. */
  lemma NemoLoads(ids: map<string, nat>, retain: bool, target: seq<string>, d: Dicts, t: seq<nat>, u: string, f: NemoFile)
    requires Tidy(d) && u !in d.lowRanks
    ensures LoadOne(ids, retain, d, t, u, NemoWork(target, f)).ok <==>
      && f.layers.Some? && f.layers.value != [] && "attn_qkv" in target && "attn_qkv" in ids
      && forall i :: 0 <= i < |f.layers.value| ==> f.layers.value[i].weights.Some?
  {
    LoadOneOutcome(ids, retain, d, t, u, NemoWork(target, f));
    if f.layers.Some? {
      NemoRecords(target, f);
      if "attn_qkv" in target {
        NemoLoadable(ids, target, f);
      }
    }
  }

  lemma NemoLoadable(ids: map<string, nat>, target: seq<string>, f: NemoFile)
    requires f.layers.Some? && NEMO_MODULE in target
    ensures Loadable(ids, NemoWork(target, f).layers) <==>
      forall i :: 0 <= i < |f.layers.value| ==> f.layers.value[i].weights.Some? && NEMO_MODULE in ids
  {
    var layers := NemoWork(target, f).layers;
    var j :| 0 <= j < |target| && target[j] == NEMO_MODULE;
    forall i | 0 <= i < |layers|
      ensures LayerLoadable(ids, layers[i].entries) <==> f.layers.value[i].weights.Some? && NEMO_MODULE in ids
    {
      assert EntryLoadable(ids, layers[i].entries[j]) <==> f.layers.value[i].weights.Some? && NEMO_MODULE in ids;
    }
  }

  lemma NemoRecords(target: seq<string>, f: NemoFile)
    requires f.layers.Some?
    ensures Records(NemoWork(target, f).layers) != [] <==>
      NEMO_MODULE in target && exists i :: 0 <= i < |f.layers.value| && f.layers.value[i].weights.Some?
  {
    var layers := NemoWork(target, f).layers;
    NoRecords(layers);
    if NEMO_MODULE in target {
      var j :| 0 <= j < |target| && target[j] == NEMO_MODULE;
      forall i | 0 <= i < |layers| ensures layers[i].entries[j].Record? <==> f.layers.value[i].weights.Some? {
      }
    }
  }
}
