/** What loading one LoRA adapter leaves in the manager's dictionaries, entry by entry. */
module LoraAdapter {
  import opened Wrappers

  datatype Tensor = Tensor(pointer: nat, data: seq<real>)
  datatype Matrices = Matrices(rank: nat, tIn: Tensor, tOut: Tensor, magnitude: Option<Tensor>)

  /** What the loader does for one module of one layer. */
  datatype Entry =
    | Skip(lora: string)                                    // not a target: rank 0
    | Record(lora: string, weights: Matrices, doraColumn: bool)
    | Failing                                               // raises, for one because a matrix is missing

  datatype Layer = Layer(index: nat, entries: seq<Entry>)

  datatype Pointers = Pointers(tIn: nat, tOut: nat, magnitude: nat)
  datatype ConfigRow = ConfigRow(moduleId: nat, layer: nat, rank: nat, isDora: Option<bool>)

  /** A list that is still being filled, or the stacked tensor it became. */
  datatype Table<T> = Filling(rows: seq<T>) | Stacked(rows: seq<T>)

  type Ranks = map<nat, map<string, nat>>
  type PointerMap = map<nat, map<string, Pointers>>

  /** The dictionary entries of one uid, and the device tensors its load has kept alive. */
  datatype Adapter = Adapter(ranks: Ranks, pointers: PointerMap, weights: Table<seq<real>>, config: Table<ConfigRow>,
                             tensors: seq<nat>)

  /** The entries so far, and whether the load is still going. */
  datatype Progress = Progress(adapter: Adapter, ok: bool)

  function PointersOf(w: Matrices): Pointers {
    Pointers(w.tIn.pointer, w.tOut.pointer, if w.magnitude.Some? then w.magnitude.value.pointer else 0)
  }

  function TensorsOf(w: Matrices): seq<nat> {
    [w.tIn.pointer, w.tOut.pointer] + if w.magnitude.Some? then [w.magnitude.value.pointer] else []
  }

  function RowOf(w: Matrices): seq<real> {
    w.tIn.data + w.tOut.data + if w.magnitude.Some? then w.magnitude.value.data else []
  }

  function ConfigOf(ids: map<string, nat>, layer: nat, e: Entry): ConfigRow
    requires e.Record? && e.lora in ids
  {
    ConfigRow(ids[e.lora], layer, e.weights.rank, if e.doraColumn then Some(e.weights.magnitude.Some?) else None)
  }

  predicate Opened(a: Adapter, layer: nat) {
    layer in a.ranks && layer in a.pointers
  }

  function PutRank(ranks: Ranks, layer: nat, lora: string, rank: nat): Ranks
    requires layer in ranks
  {
    var row: map<string, nat> := ranks[layer][lora := rank];
    ranks[layer := row]
  }

  function PutPointers(pointers: PointerMap, layer: nat, lora: string, p: Pointers): PointerMap
    requires layer in pointers
  {
    pointers[layer := pointers[layer][lora := p]]
  }

  /** One entry: ranks and pointers first, then the weight row, then the config row. */
  function Apply(ids: map<string, nat>, retain: bool, a: Adapter, layer: nat, e: Entry): (r: Progress)
    requires Opened(a, layer)
    ensures Opened(r.adapter, layer)
  {
    match e
    case Failing => Progress(a, false)
    case Skip(lora) => Progress(a.(ranks := PutRank(a.ranks, layer, lora, 0)), true)
    case Record(lora, w, _) =>
      var b := a.(ranks := PutRank(a.ranks, layer, lora, w.rank));
      var c := if retain then b.(pointers := PutPointers(b.pointers, layer, lora, PointersOf(w)), tensors := b.tensors + TensorsOf(w)) else b;
      if c.weights.Stacked? then Progress(c, false)
      else
        var d := c.(weights := Filling(c.weights.rows + [RowOf(w)]));
        if lora !in ids || d.config.Stacked? then Progress(d, false)
        else Progress(d.(config := Filling(d.config.rows + [ConfigOf(ids, layer, e)])), true)
  }

  function ApplyAll(ids: map<string, nat>, retain: bool, a: Adapter, layer: nat, es: seq<Entry>): (r: Progress)
    requires Opened(a, layer)
    ensures Opened(r.adapter, layer)
  {
    if es == [] then Progress(a, true)
    else
      var p := ApplyAll(ids, retain, a, layer, es[..|es| - 1]);
      if p.ok then Apply(ids, retain, p.adapter, layer, es[|es| - 1]) else p
  }

  function OpenRanks(ranks: Ranks, layer: nat): Ranks {
    ranks[layer := map[]]
  }

  function OpenPointers(pointers: PointerMap, layer: nat): PointerMap {
    pointers[layer := map[]]
  }

  function Open(a: Adapter, layer: nat): (r: Adapter)
    ensures Opened(r, layer)
  {
    a.(ranks := OpenRanks(a.ranks, layer), pointers := OpenPointers(a.pointers, layer))
  }

  function Load(ids: map<string, nat>, retain: bool, a: Adapter, layers: seq<Layer>): Progress {
    if layers == [] then Progress(a, true)
    else
      var p := Load(ids, retain, a, layers[..|layers| - 1]);
      var last := layers[|layers| - 1];
      if p.ok then ApplyAll(ids, retain, Open(p.adapter, last.index), last.index, last.entries) else p
  }

  // ----- Stacking -----

  function Widest(rows: seq<seq<real>>): (n: nat)
    ensures forall i :: 0 <= i < |rows| ==> |rows[i]| <= n
    ensures rows != [] ==> exists i :: 0 <= i < |rows| && |rows[i]| == n
  {
    if rows == [] then 0
    else
      var n := Widest(rows[..|rows| - 1]);
      var last := |rows[|rows| - 1]|;
      if |rows| == 1 || last > n then last else n
  }

  function Zeros(n: nat): (z: seq<real>) {
    seq(n, _ => 0.0)
  }

  function Stack(rows: seq<seq<real>>): (r: seq<seq<real>>)
  {
    seq(|rows|, i requires 0 <= i < |rows| => rows[i] + Zeros(Widest(rows) - |rows[i]|))
  }

  // ----- A load that fails stays failed -----

  lemma {:induction false} ApplyAllNext(ids: map<string, nat>, retain: bool, a: Adapter, layer: nat, es: seq<Entry>, j: nat)
    requires Opened(a, layer) && j < |es| && ApplyAll(ids, retain, a, layer, es[..j]).ok
    ensures ApplyAll(ids, retain, a, layer, es[..j + 1])
      == Apply(ids, retain, ApplyAll(ids, retain, a, layer, es[..j]).adapter, layer, es[j])
  {
    assert es[..j + 1][..j] == es[..j];
  }

  lemma {:induction false} ApplyAllStops(ids: map<string, nat>, retain: bool, a: Adapter, layer: nat, es: seq<Entry>, n: nat)
    requires Opened(a, layer) && n <= |es| && !ApplyAll(ids, retain, a, layer, es[..n]).ok
    ensures ApplyAll(ids, retain, a, layer, es) == ApplyAll(ids, retain, a, layer, es[..n])
    decreases |es|
  {
    if n == |es| {
      assert es[..n] == es;
    } else {
      assert es[..|es| - 1][..n] == es[..n];
      ApplyAllStops(ids, retain, a, layer, es[..|es| - 1], n);
    }
  }

  lemma {:induction false} LoadStops(ids: map<string, nat>, retain: bool, a: Adapter, layers: seq<Layer>, n: nat)
    requires n <= |layers| && !Load(ids, retain, a, layers[..n]).ok
    ensures Load(ids, retain, a, layers) == Load(ids, retain, a, layers[..n])
    decreases |layers|
  {
    if n == |layers| {
      assert layers[..n] == layers;
    } else {
      assert layers[..|layers| - 1][..n] == layers[..n];
      LoadStops(ids, retain, a, layers[..|layers| - 1], n);
    }
  }

  // ----- Every rank that is not zero has its pointers, and they point to kept tensors -----

  ghost predicate RanksHavePointers(ranks: Ranks, pointers: PointerMap) {
    forall l, m :: l in ranks && m in ranks[l] && ranks[l][m] != 0 ==> l in pointers && m in pointers[l]
  }

  predicate Kept(pointers: PointerMap, tensors: seq<nat>) {
    forall l, m :: l in pointers && m in pointers[l] ==> PointersKept(pointers[l][m], tensors)
  }

  predicate PointersKept(p: Pointers, tensors: seq<nat>) {
    p.tIn in tensors && p.tOut in tensors && (p.magnitude != 0 ==> p.magnitude in tensors)
  }

  lemma {:induction false} KeptGrows(pointers: PointerMap, before: seq<nat>, tensors: seq<nat>, after: seq<nat>)
    requires Kept(pointers, tensors)
    ensures Kept(pointers, before + tensors + after)
  {
    forall l, m | l in pointers && m in pointers[l] ensures PointersKept(pointers[l][m], before + tensors + after) {
      assert PointersKept(pointers[l][m], tensors);
    }
  }

  /** What input buffers rely on. */
  ghost predicate Sound(retain: bool, a: Adapter) {
    (retain ==> RanksHavePointers(a.ranks, a.pointers)) && Kept(a.pointers, a.tensors)
  }

  lemma {:induction false} PutPointersKept(pointers: PointerMap, tensors: seq<nat>, layer: nat, lora: string, w: Matrices)
    requires layer in pointers && Kept(pointers, tensors)
    ensures Kept(PutPointers(pointers, layer, lora, PointersOf(w)), tensors + TensorsOf(w))
  {
    KeptGrows(pointers, [], tensors, TensorsOf(w));
    assert [] + tensors + TensorsOf(w) == tensors + TensorsOf(w);
    assert PointersKept(PointersOf(w), tensors + TensorsOf(w));
  }

  lemma {:induction false} ApplyKeepsSound(ids: map<string, nat>, retain: bool, a: Adapter, layer: nat, e: Entry)
    requires Opened(a, layer) && Sound(retain, a)
    ensures Sound(retain, Apply(ids, retain, a, layer, e).adapter)
  {
    if e.Record? && retain {
      PutPointersKept(a.pointers, a.tensors, layer, e.lora, e.weights);
    }
  }

  lemma {:induction false} ApplyAllKeepsSound(ids: map<string, nat>, retain: bool, a: Adapter, layer: nat, es: seq<Entry>)
    requires Opened(a, layer) && Sound(retain, a)
    ensures Sound(retain, ApplyAll(ids, retain, a, layer, es).adapter)
  {
    if es != [] {
      ApplyAllKeepsSound(ids, retain, a, layer, es[..|es| - 1]);
      var p := ApplyAll(ids, retain, a, layer, es[..|es| - 1]);
      if p.ok {
        ApplyKeepsSound(ids, retain, p.adapter, layer, es[|es| - 1]);
      }
    }
  }

  /** Also when the load fails half way. */
  lemma {:induction false} LoadKeepsSound(ids: map<string, nat>, retain: bool, a: Adapter, layers: seq<Layer>)
    requires Sound(retain, a)
    ensures Sound(retain, Load(ids, retain, a, layers).adapter)
  {
    if layers != [] {
      LoadKeepsSound(ids, retain, a, layers[..|layers| - 1]);
      var p := Load(ids, retain, a, layers[..|layers| - 1]);
      var last := layers[|layers| - 1];
      if p.ok {
        ApplyAllKeepsSound(ids, retain, Open(p.adapter, last.index), last.index, last.entries);
      }
    }
  }

  // ----- Rows and config rows -----

  /** The entries that leave a row, with their layers, in load order. */
  datatype Placed = Placed(layer: nat, entry: Entry)

  function RecordsOf(layer: nat, es: seq<Entry>): (r: seq<Placed>)
    ensures forall i :: 0 <= i < |r| ==> r[i].entry.Record? && r[i].entry in es && r[i].layer == layer
  {
    if es == [] then []
    else
      var last := es[|es| - 1];
      RecordsOf(layer, es[..|es| - 1]) + if last.Record? then [Placed(layer, last)] else []
  }

  function Records(layers: seq<Layer>): (r: seq<Placed>)
    ensures forall i :: 0 <= i < |r| ==> r[i].entry.Record?
  {
    if layers == [] then []
    else Records(layers[..|layers| - 1]) + RecordsOf(layers[|layers| - 1].index, layers[|layers| - 1].entries)
  }

  predicate Known(ids: map<string, nat>, records: seq<Placed>) {
    forall i :: 0 <= i < |records| ==> records[i].entry.Record? && records[i].entry.lora in ids
  }

  function Rows(records: seq<Placed>): seq<seq<real>>
    requires forall i :: 0 <= i < |records| ==> records[i].entry.Record?
  {
    seq(|records|, i requires 0 <= i < |records| => RowOf(records[i].entry.weights))
  }

  function ConfigRows(ids: map<string, nat>, records: seq<Placed>): seq<ConfigRow>
    requires Known(ids, records)
  {
    seq(|records|, i requires 0 <= i < |records| => ConfigOf(ids, records[i].layer, records[i].entry))
  }

  /** The two tables hold exactly the rows of the records, side by side. */
  predicate Tables(ids: map<string, nat>, a: Adapter, records: seq<Placed>) {
    && (forall i :: 0 <= i < |records| ==> records[i].entry.Record?)
    && Known(ids, records)
    && a.weights == Filling(Rows(records)) && a.config == Filling(ConfigRows(ids, records))
  }

  /** No entry raises and every recorded module has an id. */
  predicate Loadable(ids: map<string, nat>, layers: seq<Layer>) {
    forall i :: 0 <= i < |layers| ==> LayerLoadable(ids, layers[i].entries)
  }

  predicate LayerLoadable(ids: map<string, nat>, es: seq<Entry>) {
    forall j :: 0 <= j < |es| ==> EntryLoadable(ids, es[j])
  }

  predicate EntryLoadable(ids: map<string, nat>, e: Entry) {
    !e.Failing? && (e.Record? ==> e.lora in ids)
  }

  lemma {:induction false} ApplyTables(ids: map<string, nat>, retain: bool, a: Adapter, layer: nat, e: Entry, records: seq<Placed>)
    requires Opened(a, layer) && Tables(ids, a, records)
    ensures var r := Apply(ids, retain, a, layer, e);
            && (r.ok <==> EntryLoadable(ids, e))
            && (r.ok ==> Tables(ids, r.adapter, records + RecordsOf(layer, [e])))
  {
    assert [e][..0] == [];
    assert RecordsOf(layer, [e]) == if e.Record? then [Placed(layer, e)] else [];
    if e.Record? && e.lora in ids {
      var more := records + [Placed(layer, e)];
      assert Rows(more) == Rows(records) + [RowOf(e.weights)];
      assert ConfigRows(ids, more) == ConfigRows(ids, records) + [ConfigOf(ids, layer, e)];
    } else {
      assert records + [] == records;
    }
  }

  lemma {:induction false} ApplyAllTables(ids: map<string, nat>, retain: bool, a: Adapter, layer: nat, es: seq<Entry>, records: seq<Placed>)
    requires Opened(a, layer) && Tables(ids, a, records)
    ensures var r := ApplyAll(ids, retain, a, layer, es);
            && (r.ok <==> LayerLoadable(ids, es))
            && (r.ok ==> Tables(ids, r.adapter, records + RecordsOf(layer, es)))
    decreases |es|
  {
    if es == [] {
      assert records + [] == records;
    } else {
      var front, last := es[..|es| - 1], es[|es| - 1];
      ApplyAllTables(ids, retain, a, layer, front, records);
      assert LayerLoadable(ids, es) <==> LayerLoadable(ids, front) && EntryLoadable(ids, last) by {
        assert es == front + [last];
      }
      var p := ApplyAll(ids, retain, a, layer, front);
      if p.ok {
        ApplyTables(ids, retain, p.adapter, layer, last, records + RecordsOf(layer, front));
        assert [last][..0] == [];
        assert records + RecordsOf(layer, front) + RecordsOf(layer, [last]) == records + RecordsOf(layer, es);
      }
    }
  }

  /** A load into fresh tables succeeds exactly on a loadable checkpoint, and then row `i` of both tables describes
      the `i`-th recorded entry. */
  lemma {:induction false} LoadTables(ids: map<string, nat>, retain: bool, a: Adapter, layers: seq<Layer>)
    requires a.weights == Filling([]) && a.config == Filling([])
    ensures var r := Load(ids, retain, a, layers);
            && (r.ok <==> Loadable(ids, layers))
            && (r.ok ==> Tables(ids, r.adapter, Records(layers)))
    decreases |layers|
  {
    if layers == [] {
      assert Rows([]) == [] && ConfigRows(ids, []) == [];
    } else {
      var front, last := layers[..|layers| - 1], layers[|layers| - 1];
      LoadTables(ids, retain, a, front);
      assert Loadable(ids, layers) <==> Loadable(ids, front) && LayerLoadable(ids, last.entries) by {
        assert layers == front + [last];
      }
      var p := Load(ids, retain, a, front);
      if p.ok {
        ApplyAllTables(ids, retain, Open(p.adapter, last.index), last.index, last.entries, Records(front));
      }
    }
  }

  // ----- What is looked up afterwards is what was recorded -----

  /** Rank and pointers of one module of one layer are those of these matrices. */
  predicate HoldsMatrices(retain: bool, a: Adapter, layer: nat, lora: string, w: Matrices) {
    && layer in a.ranks && lora in a.ranks[layer] && a.ranks[layer][lora] == w.rank
    && (retain ==> && layer in a.pointers && lora in a.pointers[layer]
                   && a.pointers[layer][lora].tIn == w.tIn.pointer && a.pointers[layer][lora].tOut == w.tOut.pointer
                   && a.pointers[layer][lora].magnitude == (if w.magnitude.Some? then w.magnitude.value.pointer else 0))
  }

  predicate OtherModule(e: Entry, lora: string) {
    e.Failing? || e.lora != lora
  }

  lemma ApplyHolds(ids: map<string, nat>, retain: bool, a: Adapter, layer: nat, e: Entry, lora: string, w: Matrices)
    requires Opened(a, layer)
    requires (e.Record? && e.lora == lora && e.weights == w) || (OtherModule(e, lora) && HoldsMatrices(retain, a, layer, lora, w))
    ensures HoldsMatrices(retain, Apply(ids, retain, a, layer, e).adapter, layer, lora, w)
  {
  }

  lemma {:induction false} ApplyAllHolds(ids: map<string, nat>, retain: bool, a: Adapter, layer: nat, es: seq<Entry>, j: nat)
    requires Opened(a, layer) && j < |es| && es[j].Record? && ApplyAll(ids, retain, a, layer, es).ok
    requires forall k :: j < k < |es| ==> OtherModule(es[k], es[j].lora)
    ensures HoldsMatrices(retain, ApplyAll(ids, retain, a, layer, es).adapter, layer, es[j].lora, es[j].weights)
    decreases |es|
  {
    var n := |es| - 1;
    if j < n {
      ApplyAllHolds(ids, retain, a, layer, es[..n], j);
    }
    ApplyHolds(ids, retain, ApplyAll(ids, retain, a, layer, es[..n]).adapter, layer, es[n], es[j].lora, es[j].weights);
  }

  lemma {:induction false} ApplyAllTouchesOne(ids: map<string, nat>, retain: bool, a: Adapter, layer: nat, es: seq<Entry>,
                                              other: nat, lora: string, w: Matrices)
    requires Opened(a, layer) && other != layer && HoldsMatrices(retain, a, other, lora, w)
    ensures HoldsMatrices(retain, ApplyAll(ids, retain, a, layer, es).adapter, other, lora, w)
    decreases |es|
  {
    if es != [] {
      ApplyAllTouchesOne(ids, retain, a, layer, es[..|es| - 1], other, lora, w);
    }
  }

  /** After a load that went through, every recorded module, unless a later entry of the same layer and module
      replaced it, is looked up with its own rank and pointers. */
  lemma {:induction false} LoadHolds(ids: map<string, nat>, retain: bool, a: Adapter, layers: seq<Layer>, i: nat, j: nat)
    requires Load(ids, retain, a, layers).ok && i < |layers| && j < |layers[i].entries| && layers[i].entries[j].Record?
    requires forall k :: j < k < |layers[i].entries| ==> OtherModule(layers[i].entries[k], layers[i].entries[j].lora)
    requires forall k :: i < k < |layers| ==> layers[k].index != layers[i].index
    ensures var e := layers[i].entries[j];
            HoldsMatrices(retain, Load(ids, retain, a, layers).adapter, layers[i].index, e.lora, e.weights)
    decreases |layers|
  {
    var n := |layers| - 1;
    var e, last := layers[i].entries[j], layers[n];
    var before := Open(Load(ids, retain, a, layers[..n]).adapter, last.index);
    if i == n {
      ApplyAllHolds(ids, retain, before, last.index, last.entries, j);
    } else {
      LoadHolds(ids, retain, a, layers[..n], i, j);
      ApplyAllTouchesOne(ids, retain, before, last.index, last.entries, layers[i].index, e.lora, e.weights);
    }
  }

  /** Stacking keeps every row as a prefix and fills it with zeros to the width of the widest row. */
  lemma StackPads(rows: seq<seq<real>>, i: nat)
    requires i < |rows|
    ensures |Stack(rows)| == |rows| && |Stack(rows)[i]| == Widest(rows)
    ensures rows[i] <= Stack(rows)[i]
    ensures forall k :: |rows[i]| <= k < |Stack(rows)[i]| ==> Stack(rows)[i][k] == 0.0
  {
  }
}
