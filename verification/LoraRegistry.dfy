/** The LoRA manager: adapters are loaded under uids, kept in several dictionaries, and handed to the engine. */
module LoraRegistry {
  import opened Wrappers
  import opened LoraAdapter
  import Json

  // ----- Checkpoints -----

  /** What the two loaders make of a checkpoint: unreadable, or the work to do layer by layer. */
  datatype Checkpoint = Unreadable | Readable(layers: seq<Layer>)

  /** One Hugging Face layer: modules with their matrices, or without when one is missing. */
  datatype HfModule = HfModule(lora: string, weights: Option<Matrices>)
  datatype HfLayer = HfLayer(index: nat, modules: seq<HfModule>)
  datatype HfDir = HfDir(configReadable: bool, rsLora: bool, model: Option<seq<HfLayer>>)

  datatype NemoLayer = NemoLayer(index: nat, weights: Option<Matrices>)
  datatype NemoFile = NemoFile(layers: Option<seq<NemoLayer>>)

  /** The plain scale divides by the rank, so rank 0 raises; the rank-stabilised one does not. */
  function HfEntry(target: seq<string>, rsLora: bool, m: HfModule): Entry {
    if m.lora !in target then Skip(m.lora)
    else if m.weights.None? || (m.weights.value.rank == 0 && !rsLora) then Failing
    else Record(m.lora, m.weights.value, true)
  }

  function HfWork(target: seq<string>, d: HfDir): Checkpoint {
    if d.model.None? then Unreadable
    else
      Readable(seq(|d.model.value|, i requires 0 <= i < |d.model.value| =>
        var l := d.model.value[i];
        Layer(l.index, seq(|l.modules|, j requires 0 <= j < |l.modules| => HfEntry(target, d.rsLora, l.modules[j])))))
  }

  function HfPlan(target: seq<string>, picked: seq<(string, HfDir)>): seq<(string, Checkpoint)> {
    seq(|picked|, i requires 0 <= i < |picked| => (picked[i].0, HfWork(target, picked[i].1)))
  }

  const NEMO_MODULE := "attn_qkv"

  function NemoEntry(l: NemoLayer, lora: string): Entry {
    if lora != NEMO_MODULE then Skip(lora)
    else if l.weights.None? then Failing
    else Record(lora, l.weights.value.(magnitude := None), false)
  }

  function NemoWork(target: seq<string>, f: NemoFile): Checkpoint {
    if f.layers.None? then Unreadable
    else
      Readable(seq(|f.layers.value|, i requires 0 <= i < |f.layers.value| =>
        var l := f.layers.value[i];
        Layer(l.index, seq(|target|, j requires 0 <= j < |target| => NemoEntry(l, target[j])))))
  }

  function NemoPlan(target: seq<string>, picked: seq<(string, NemoFile)>): seq<(string, Checkpoint)> {
    seq(|picked|, i requires 0 <= i < |picked| => (picked[i].0, NemoWork(target, picked[i].1)))
  }

  // ----- Generated uids -----

  /** Counters print to different uids. */
  lemma {:induction false} DigitsInjective(a: nat, b: nat)
    requires Json.Digits(a) == Json.Digits(b)
    ensures a == b
  {
    Json.DigitsRoundTrip(a, "");
    Json.DigitsRoundTrip(b, "");
    assert Json.Digits(a) + "" == Json.Digits(a) && Json.Digits(b) + "" == Json.Digits(b);
  }

  // ----- Which uids are new -----

  function Pick<T>(uids: seq<string>, files: seq<T>, loaded: set<string>): (r: seq<(string, T)>)
    requires |uids| == |files|
  {
    if uids == [] then []
    else
      var n := |uids| - 1;
      Pick(uids[..n], files[..n], loaded) + if uids[n] in loaded then [] else [(uids[n], files[n])]
  }

  predicate Distinct(s: seq<string>) {
    forall i, j :: 0 <= i < j < |s| ==> s[i] != s[j]
  }

  function Firsts<T>(s: seq<(string, T)>): seq<string> {
    seq(|s|, i requires 0 <= i < |s| => s[i].0)
  }

  lemma {:induction false} PickLast<T>(uids: seq<string>, files: seq<T>, loaded: set<string>)
    requires |uids| == |files| && uids != []
    ensures var n := |uids| - 1;
      Firsts(Pick(uids, files, loaded))
      == Firsts(Pick(uids[..n], files[..n], loaded)) + if uids[n] in loaded then [] else [uids[n]]
  {
  }

  /** The picked uids are the given ones that are not loaded. */
  lemma {:induction false} PickMeans<T>(uids: seq<string>, files: seq<T>, loaded: set<string>)
    requires |uids| == |files|
    ensures forall u :: u in Firsts(Pick(uids, files, loaded)) <==> u in uids && u !in loaded
  {
    if uids != [] {
      var n := |uids| - 1;
      PickLast(uids, files, loaded);
      PickMeans(uids[..n], files[..n], loaded);
      assert uids == uids[..n] + [uids[n]];
    }
  }

  /** Nothing is picked twice that was not given twice. */
  lemma {:induction false} PickDistinct<T>(uids: seq<string>, files: seq<T>, loaded: set<string>)
    requires |uids| == |files| && Distinct(uids)
    ensures Distinct(Firsts(Pick(uids, files, loaded)))
  {
    if uids != [] {
      var n := |uids| - 1;
      PickLast(uids, files, loaded);
      PickDistinct(uids[..n], files[..n], loaded);
      PickMeans(uids[..n], files[..n], loaded);
      assert uids[n] !in uids[..n];
    }
  }

  /** Each uid with its file. */
  function Paired<T>(uids: seq<string>, files: seq<T>): seq<(string, T)>
    requires |uids| == |files|
  {
    seq(|uids|, i requires 0 <= i < |uids| => (uids[i], files[i]))
  }

  /** Of unloaded uids, all are picked in order, each with its own file. */
  lemma {:induction false} PickAll<T>(uids: seq<string>, files: seq<T>, loaded: set<string>)
    requires |uids| == |files| && forall u :: u in uids ==> u !in loaded
    ensures Pick(uids, files, loaded) == Paired(uids, files) && Firsts(Pick(uids, files, loaded)) == uids
  {
    if uids != [] {
      var n := |uids| - 1;
      PickLast(uids, files, loaded);
      PickAll(uids[..n], files[..n], loaded);
      assert uids == uids[..n] + [uids[n]];
    }
  }

  /** Where the picked pairs come from: ascending positions, exactly those of unloaded uids, each with its own file. */
  ghost predicate PickedAt<T>(uids: seq<string>, files: seq<T>, loaded: set<string>, picked: seq<(string, T)>, at: seq<nat>)
    requires |uids| == |files|
  {
    && |at| == |picked|
    && (forall k :: 0 <= k < |at| ==> at[k] < |uids| && picked[k] == (uids[at[k]], files[at[k]]))
    && (forall k, l :: 0 <= k < l < |at| ==> at[k] < at[l])
    && (forall i :: 0 <= i < |uids| ==> (i in at <==> uids[i] !in loaded))
  }

  lemma {:induction false} PickPositions<T>(uids: seq<string>, files: seq<T>, loaded: set<string>) returns (at: seq<nat>)
    requires |uids| == |files|
    ensures PickedAt(uids, files, loaded, Pick(uids, files, loaded), at)
  {
    at := [];
    if uids != [] {
      var n := |uids| - 1;
      var us, fs, u, f := uids[..n], files[..n], uids[n], files[n];
      at := PickPositions(us, fs, loaded);
      PickedNext(us, fs, u, f, loaded, Pick(us, fs, loaded), at);
      at := if u in loaded then at else at + [n];
      PickStep(uids, files, us, fs, u, f, loaded);
    }
  }

  lemma {:induction false} PickStep<T>(uids: seq<string>, files: seq<T>, us: seq<string>, fs: seq<T>, u: string, f: T, loaded: set<string>)
    requires |us| == |fs| && |uids| == |files| == |us| + 1
    requires us == uids[..|us|] && fs == files[..|us|] && u == uids[|us|] && f == files[|us|]
    ensures uids == us + [u] && files == fs + [f]
    ensures Pick(uids, files, loaded) == Pick(us, fs, loaded) + if u in loaded then [] else [(u, f)]
  {
  }

  lemma {:induction false} PickedNext<T>(uids: seq<string>, files: seq<T>, u: string, f: T, loaded: set<string>, picked: seq<(string, T)>, at: seq<nat>)
    requires |uids| == |files| && PickedAt(uids, files, loaded, picked, at)
    ensures var n := |uids|;
      PickedAt(uids + [u], files + [f], loaded, picked + (if u in loaded then [] else [(u, f)]),
               if u in loaded then at else at + [n])
  {
    var n := |uids|;
    var more, at1 := picked + (if u in loaded then [] else [(u, f)]), if u in loaded then at else at + [n];
    forall k | 0 <= k < |at1| ensures at1[k] < n + 1 && more[k] == ((uids + [u])[at1[k]], (files + [f])[at1[k]]) {
      if k < |at| {
        assert at[k] < n && picked[k] == (uids[at[k]], files[at[k]]);
      }
    }
    assert n !in at;
    forall i | 0 <= i < n + 1 ensures i in at1 <==> (uids + [u])[i] !in loaded {
      if i < n {
        assert i in at1 <==> i in at;
      } else {
        assert u !in loaded ==> at1[|at|] == n;
      }
    }
  }

  /** The manager's dictionaries, by uid. */
  datatype Dicts = Dicts(lowRanks: map<string, Ranks>, pointers: map<string, PointerMap>,
                         weights: map<string, Table<seq<real>>>, config: map<string, Table<ConfigRow>>)

  predicate Registered(d: Dicts, u: string) {
    u in d.lowRanks && u in d.pointers && u in d.weights && u in d.config
  }

  function Put(d: Dicts, u: string, a: Adapter): Dicts {
    Dicts(d.lowRanks[u := a.ranks], d.pointers[u := a.pointers], d.weights[u := a.weights], d.config[u := a.config])
  }

  lemma UpdateTwice<K, V>(m: map<K, V>, k: K, v: V, w: V)
    ensures m[k := v][k := w] == m[k := w]
  {
  }

  lemma PutTwice(d: Dicts, u: string, a: Adapter, b: Adapter)
    ensures Put(Put(d, u, a), u, b) == Put(d, u, b)
  {
    UpdateTwice(d.lowRanks, u, a.ranks, b.ranks);
    UpdateTwice(d.pointers, u, a.pointers, b.pointers);
    UpdateTwice(d.weights, u, a.weights, b.weights);
    UpdateTwice(d.config, u, a.config, b.config);
  }

  /** Both tables are stacked, with one row per record, the weight rows all of one width. */
  predicate CompleteTables(weights: Table<seq<real>>, config: Table<ConfigRow>) {
    && weights.Stacked? && config.Stacked?
    && 0 < |weights.rows| == |config.rows|
    && forall i, j :: 0 <= i < j < |weights.rows| ==> |weights.rows[i]| == |weights.rows[j]|
  }

  lemma StackIsComplete(rows: seq<seq<real>>, configs: seq<ConfigRow>)
    requires 0 < |rows| == |configs|
    ensures CompleteTables(Stacked(Stack(rows)), Stacked(configs))
  {
    forall i | 0 <= i < |rows| ensures |Stack(rows)[i]| == Widest(rows) {
    }
  }

  predicate Tidy(d: Dicts) {
    && d.lowRanks.Keys == d.pointers.Keys <= d.weights.Keys == d.config.Keys
    && forall u :: u in d.weights && u !in d.lowRanks ==> d.weights[u] == Filling([]) && d.config[u] == Filling([])
  }

  ghost predicate SoundAt(d: Dicts, retain: bool, tensors: seq<nat>, u: string)
    requires u in d.lowRanks && u in d.pointers
  {
    (retain ==> RanksHavePointers(d.lowRanks[u], d.pointers[u])) && Kept(d.pointers[u], tensors)
  }

  /** The load of this uid went through. */
  predicate Complete(d: Dicts, u: string) {
    Registered(d, u) && CompleteTables(d.weights[u], d.config[u])
  }

  /** Every uid that any dictionary knows is completely loaded. */
  ghost predicate AllComplete(d: Dicts) {
    d.weights.Keys == d.lowRanks.Keys && forall u :: u in d.lowRanks ==> Complete(d, u)
  }

  ghost predicate AllSound(d: Dicts, retain: bool, tensors: seq<nat>) {
    Tidy(d) && forall u :: u in d.lowRanks ==> SoundAt(d, retain, tensors, u)
  }

  /** The same for this uid in both. */
  predicate Same(d: Dicts, e: Dicts, u: string) {
    && (u in d.lowRanks <==> u in e.lowRanks) && (u in d.lowRanks ==> d.lowRanks[u] == e.lowRanks[u])
    && (u in d.pointers <==> u in e.pointers) && (u in d.pointers ==> d.pointers[u] == e.pointers[u])
    && (u in d.weights <==> u in e.weights) && (u in d.weights ==> d.weights[u] == e.weights[u])
    && (u in d.config <==> u in e.config) && (u in d.config ==> d.config[u] == e.config[u])
  }

  lemma SameTrans(c: Dicts, d: Dicts, e: Dicts, u: string)
    requires Same(c, d, u) && Same(d, e, u)
    ensures Same(c, e, u)
  {
  }

  /** The lists of a uid that is about to be loaded: new, unless a load has left some. */
  function Begin(d: Dicts, u: string): Adapter {
    Adapter(map[], map[], if u in d.weights then d.weights[u] else Filling([]),
            if u in d.config then d.config[u] else Filling([]), [])
  }

  /** The lists alone, before the file is read. */
  function WithLists(d: Dicts, u: string): Dicts {
    d.(weights := d.weights[u := Begin(d, u).weights], config := d.config[u := Begin(d, u).config])
  }

  function Finish(p: Progress): Progress {
    if !p.ok || p.adapter.weights.rows == [] then Progress(p.adapter, false)
    else
      Progress(p.adapter.(weights := Stacked(Stack(p.adapter.weights.rows)), config := Stacked(p.adapter.config.rows)), true)
  }

  lemma {:induction false} ListsKeepSound(d: Dicts, u: string, retain: bool, t: seq<nat>)
    requires AllSound(d, retain, t)
    ensures AllSound(WithLists(d, u), retain, t)
  {
    var e := WithLists(d, u);
    forall v | v in e.lowRanks ensures SoundAt(e, retain, t, v) {
      assert SoundAt(d, retain, t, v);
    }
  }

  lemma {:induction false} PutKeepsSound(d: Dicts, u: string, a: Adapter, retain: bool, t: seq<nat>)
    requires AllSound(d, retain, t) && Sound(retain, a)
    ensures AllSound(Put(d, u, a), retain, t + a.tensors)
  {
    var e := Put(d, u, a);
    forall v | v in e.lowRanks ensures SoundAt(e, retain, t + a.tensors, v) {
      if v == u {
        KeptGrows(a.pointers, t, a.tensors, []);
        assert t + a.tensors + [] == t + a.tensors;
      } else {
        assert SoundAt(d, retain, t, v);
        KeptGrows(d.pointers[v], [], t, a.tensors);
        assert [] + t + a.tensors == t + a.tensors;
      }
    }
  }

  lemma PutTouchesOne(d: Dicts, u: string, a: Adapter, v: string)
    requires v != u
    ensures Same(d, Put(d, u, a), v)
  {
  }

  /** Loading under a new uid: exactly the checkpoints that go through, and the tables they leave. */
  lemma {:induction false} FreshLoad(ids: map<string, nat>, retain: bool, a: Adapter, layers: seq<Layer>)
    requires a.weights == Filling([]) && a.config == Filling([])
    ensures var p := Finish(Load(ids, retain, a, layers));
            && (p.ok <==> Loadable(ids, layers) && Records(layers) != [])
            && (p.ok ==> && Known(ids, Records(layers))
                         && p.adapter.weights == Stacked(Stack(Rows(Records(layers))))
                         && p.adapter.config == Stacked(ConfigRows(ids, Records(layers)))
                         && CompleteTables(p.adapter.weights, p.adapter.config))
  {
    LoadTables(ids, retain, a, layers);
    if Finish(Load(ids, retain, a, layers)).ok {
      StackIsComplete(Rows(Records(layers)), ConfigRows(ids, Records(layers)));
    }
  }

  lemma {:induction false} FinishKeepsSound(ids: map<string, nat>, retain: bool, a: Adapter, layers: seq<Layer>)
    requires Sound(retain, a)
    ensures Sound(retain, Finish(Load(ids, retain, a, layers)).adapter)
  {
    LoadKeepsSound(ids, retain, a, layers);
  }

  // ----- One load, and many -----

  datatype Outcome = Outcome(dicts: Dicts, tensors: seq<nat>, ok: bool)

  /** Loading one checkpoint. One that was read registers `u`, also when the load then fails. */
  function LoadOne(ids: map<string, nat>, retain: bool, d: Dicts, t: seq<nat>, u: string, work: Checkpoint): Outcome {
    if work.Unreadable? then Outcome(WithLists(d, u), t, false)
    else
      var p := Finish(Load(ids, retain, Begin(d, u), work.layers));
      Outcome(Put(d, u, p.adapter), t + p.adapter.tensors, p.ok)
  }

  /** Loading several, up to the first that fails. */
  function LoadEach(ids: map<string, nat>, retain: bool, d: Dicts, t: seq<nat>, work: seq<(string, Checkpoint)>): Outcome {
    if work == [] then Outcome(d, t, true)
    else
      var r := LoadEach(ids, retain, d, t, work[..|work| - 1]);
      var last := work[|work| - 1];
      if r.ok then LoadOne(ids, retain, r.dicts, r.tensors, last.0, last.1) else r
  }

  lemma {:induction false} LoadOneKeepsSound(ids: map<string, nat>, retain: bool, d: Dicts, t: seq<nat>, u: string, work: Checkpoint)
    requires AllSound(d, retain, t)
    ensures AllSound(LoadOne(ids, retain, d, t, u, work).dicts, retain, LoadOne(ids, retain, d, t, u, work).tensors)
  {
    if work.Unreadable? {
      ListsKeepSound(d, u, retain, t);
    } else {
      FinishKeepsSound(ids, retain, Begin(d, u), work.layers);
      PutKeepsSound(d, u, Finish(Load(ids, retain, Begin(d, u), work.layers)).adapter, retain, t);
    }
  }

  lemma LoadOneTouchesOne(ids: map<string, nat>, retain: bool, d: Dicts, t: seq<nat>, u: string, work: Checkpoint, v: string)
    requires v != u
    ensures Same(d, LoadOne(ids, retain, d, t, u, work).dicts, v)
  {
    if work.Readable? {
      PutTouchesOne(d, u, Finish(Load(ids, retain, Begin(d, u), work.layers)).adapter, v);
    }
  }

  /** `u` holds the rows of the recorded modules of this checkpoint, padded and stacked, and their config rows. */
  ghost predicate Loaded(ids: map<string, nat>, d: Dicts, u: string, work: Checkpoint) {
    && Registered(d, u) && work.Readable? && Known(ids, Records(work.layers))
    && d.weights[u] == Stacked(Stack(Rows(Records(work.layers))))
    && d.config[u] == Stacked(ConfigRows(ids, Records(work.layers)))
  }

  lemma SameKeepsLoaded(ids: map<string, nat>, d: Dicts, e: Dicts, u: string, work: Checkpoint)
    requires Loaded(ids, d, u, work) && Same(d, e, u)
    ensures Loaded(ids, e, u, work)
  {
  }

  /** Under a new uid the load goes through exactly for a readable, loadable checkpoint with a recorded module. */
  lemma {:induction false} LoadOneOutcome(ids: map<string, nat>, retain: bool, d: Dicts, t: seq<nat>, u: string, work: Checkpoint)
    requires Tidy(d) && u !in d.lowRanks
    ensures var r := LoadOne(ids, retain, d, t, u, work);
            && (r.ok <==> work.Readable? && Loadable(ids, work.layers) && Records(work.layers) != [])
            && (u in r.dicts.lowRanks <==> work.Readable?)
            && (r.ok ==> && Complete(r.dicts, u)
                         && r.dicts.lowRanks.Keys == d.lowRanks.Keys + {u}
                         && r.dicts.weights.Keys == d.weights.Keys + {u}
                         && Loaded(ids, r.dicts, u, work))
  {
    if work.Readable? {
      FreshLoad(ids, retain, Begin(d, u), work.layers);
    }
  }

  /** After a load, the dictionaries hold the rank and the pointers of each module that it recorded last. */
  lemma {:induction false} LoadOneHolds(ids: map<string, nat>, retain: bool, d: Dicts, t: seq<nat>, u: string,
                                        layers: seq<Layer>, i: nat, j: nat)
    requires LoadOne(ids, retain, d, t, u, Readable(layers)).ok
    requires i < |layers| && j < |layers[i].entries| && layers[i].entries[j].Record?
    requires forall k :: j < k < |layers[i].entries| ==> OtherModule(layers[i].entries[k], layers[i].entries[j].lora)
    requires forall k :: i < k < |layers| ==> layers[k].index != layers[i].index
    ensures var r := LoadOne(ids, retain, d, t, u, Readable(layers)).dicts;
            var e := layers[i].entries[j];
            Registered(r, u) &&
            HoldsMatrices(retain, Adapter(r.lowRanks[u], r.pointers[u], r.weights[u], r.config[u], []),
                          layers[i].index, e.lora, e.weights)
  {
    LoadHolds(ids, retain, Begin(d, u), layers, i, j);
  }

  /** A failed load of a checkpoint that was read leaves its uid registered, so a later load of it is skipped. */
  lemma FailedLoadStaysRegistered(ids: map<string, nat>, retain: bool, d: Dicts, t: seq<nat>, u: string)
    requires Tidy(d) && u !in d.lowRanks
    ensures var r := LoadOne(ids, retain, d, t, u, Readable([Layer(0, [Failing])]));
            !r.ok && u in r.dicts.lowRanks && !Complete(r.dicts, u)
            && forall work: Checkpoint :: Pick([u], [work], r.dicts.lowRanks.Keys) == []
  {
    var work := Readable([Layer(0, [Failing])]);
    LoadOneOutcome(ids, retain, d, t, u, work);
    var r := LoadOne(ids, retain, d, t, u, work);
    assert !Loadable(ids, work.layers) by {
      assert !EntryLoadable(ids, work.layers[0].entries[0]);
    }
    FailedIsFilling(ids, retain, Begin(d, u));
    forall again: Checkpoint ensures Pick([u], [again], r.dicts.lowRanks.Keys) == [] {
      assert [u][..0] == [] && [again][..0] == [];
    }
  }

  lemma FailedIsFilling(ids: map<string, nat>, retain: bool, a: Adapter)
    requires a.weights == Filling([])
    ensures Finish(Load(ids, retain, a, [Layer(0, [Failing])])).adapter.weights == Filling([])
  {
    var layers, es := [Layer(0, [Failing])], [Failing];
    assert layers[..0] == [] && es[..0] == [];
    var o := Open(a, 0);
    assert ApplyAll(ids, retain, o, 0, es) == Apply(ids, retain, o, 0, Failing);
    assert Load(ids, retain, a, layers) == ApplyAll(ids, retain, Open(a, 0), 0, es);
  }

  predicate AllNew(d: Dicts, work: seq<(string, Checkpoint)>) {
    forall i :: 0 <= i < |work| ==> work[i].0 !in d.lowRanks
  }

  /** Whatever happens on the way, the registry stays sound and the uids that were loaded keep their entries. */
  lemma {:induction false} LoadEachKeepsSound(ids: map<string, nat>, retain: bool, d: Dicts, t: seq<nat>, work: seq<(string, Checkpoint)>)
    requires AllSound(d, retain, t) && AllNew(d, work)
    ensures var r := LoadEach(ids, retain, d, t, work);
            AllSound(r.dicts, retain, r.tensors) && forall v :: v in d.lowRanks ==> Same(d, r.dicts, v)
  {
    if work != [] {
      LoadEachKeepsSound(ids, retain, d, t, work[..|work| - 1]);
      var r := LoadEach(ids, retain, d, t, work[..|work| - 1]);
      var last := work[|work| - 1];
      if r.ok {
        LoadOneKeepsSound(ids, retain, r.dicts, r.tensors, last.0, last.1);
        var q := LoadOne(ids, retain, r.dicts, r.tensors, last.0, last.1);
        forall v | v in d.lowRanks ensures Same(d, q.dicts, v) {
          assert v != last.0;
          LoadOneTouchesOne(ids, retain, r.dicts, r.tensors, last.0, last.1, v);
          SameTrans(d, r.dicts, q.dicts, v);
        }
      }
    }
  }

  function Uids(work: seq<(string, Checkpoint)>): set<string> {
    set i | 0 <= i < |work| :: work[i].0
  }

  lemma {:induction false} LastUid(work: seq<(string, Checkpoint)>)
    requires work != [] && Distinct(Firsts(work))
    ensures var n := |work| - 1; var front := work[..n];
            && Uids(work) == Uids(front) + {work[n].0}
            && Distinct(Firsts(front)) && work[n].0 !in Uids(front)
  {
    var n := |work| - 1;
    var front := work[..n];
    forall i, j | 0 <= i < j < n ensures Firsts(front)[i] != Firsts(front)[j] {
      assert Firsts(work)[i] != Firsts(work)[j];
    }
    forall i | 0 <= i < n ensures front[i].0 != work[n].0 {
      assert Firsts(work)[i] != Firsts(work)[n];
    }
  }

  /** All these uids are complete, and the dictionaries hold exactly them on top of those of `d`. */
  ghost predicate Adds(d: Dicts, e: Dicts, uids: set<string>) {
    && e.lowRanks.Keys == d.lowRanks.Keys + uids
    && e.weights.Keys == d.weights.Keys + uids
    && forall u :: u in uids ==> Complete(e, u)
  }

  lemma {:induction false} AddsOneMore(d: Dicts, e: Dicts, q: Dicts, uids: set<string>, u: string)
    requires Adds(d, e, uids) && Complete(q, u)
    requires q.lowRanks.Keys == e.lowRanks.Keys + {u} && q.weights.Keys == e.weights.Keys + {u}
    requires forall v {:trigger Same(e, q, v)} :: v != u ==> Same(e, q, v)
    ensures Adds(d, q, uids + {u})
  {
    forall v | v in uids + {u} ensures Complete(q, v) {
      if v != u {
        assert Complete(e, v) && Same(e, q, v);
      }
    }
  }

  /** Loads that all go through add exactly their uids to every dictionary, each with matching tables. */
  lemma {:induction false} LoadEachCompletes(ids: map<string, nat>, retain: bool, d: Dicts, t: seq<nat>, work: seq<(string, Checkpoint)>)
    requires AllSound(d, retain, t) && AllNew(d, work) && Distinct(Firsts(work)) && LoadEach(ids, retain, d, t, work).ok
    ensures Adds(d, LoadEach(ids, retain, d, t, work).dicts, Uids(work))
  {
    if work == [] {
      assert Uids(work) == {};
    } else {
      var n := |work| - 1;
      LastUid(work);
      LoadEachCompletes(ids, retain, d, t, work[..n]);
      LoadEachKeepsSound(ids, retain, d, t, work[..n]);
      var r := LoadEach(ids, retain, d, t, work[..n]);
      LoadOneOutcome(ids, retain, r.dicts, r.tensors, work[n].0, work[n].1);
      forall v | v != work[n].0 ensures Same(r.dicts, LoadOne(ids, retain, r.dicts, r.tensors, work[n].0, work[n].1).dicts, v) {
        LoadOneTouchesOne(ids, retain, r.dicts, r.tensors, work[n].0, work[n].1, v);
      }
      AddsOneMore(d, r.dicts, LoadEach(ids, retain, d, t, work).dicts, Uids(work[..n]), work[n].0);
    }
  }

  /** Loads under different uids do not disturb one another: each uid holds the rows of its own checkpoint. */
  lemma {:induction false} LoadEachContents(ids: map<string, nat>, retain: bool, d: Dicts, t: seq<nat>, work: seq<(string, Checkpoint)>, i: nat)
    requires AllSound(d, retain, t) && AllNew(d, work) && Distinct(Firsts(work)) && LoadEach(ids, retain, d, t, work).ok
    requires i < |work|
    ensures Loaded(ids, LoadEach(ids, retain, d, t, work).dicts, work[i].0, work[i].1)
  {
    var n := |work| - 1;
    if i < n {
      LastUid(work);
      LoadEachContents(ids, retain, d, t, work[..n], i);
      assert work[..n][i] == work[i] && work[i].0 in Uids(work[..n]);
      var r := LoadEach(ids, retain, d, t, work[..n]);
      LoadedStays(ids, retain, r.dicts, r.tensors, work[n].0, work[n].1, work[i].0, work[i].1);
    } else {
      LastLoaded(ids, retain, d, t, work);
    }
  }

  lemma {:induction false} LastLoaded(ids: map<string, nat>, retain: bool, d: Dicts, t: seq<nat>, work: seq<(string, Checkpoint)>)
    requires AllSound(d, retain, t) && AllNew(d, work) && Distinct(Firsts(work)) && LoadEach(ids, retain, d, t, work).ok
    requires work != []
    ensures var last := work[|work| - 1]; Loaded(ids, LoadEach(ids, retain, d, t, work).dicts, last.0, last.1)
  {
    var front, last := work[..|work| - 1], work[|work| - 1];
    var r := LoadEach(ids, retain, d, t, front);
    LastUid(work);
    LoadEachKeepsSound(ids, retain, d, t, front);
    LoadEachCompletes(ids, retain, d, t, front);
    LoadOneOutcome(ids, retain, r.dicts, r.tensors, last.0, last.1);
  }

  lemma LoadedStays(ids: map<string, nat>, retain: bool, d: Dicts, t: seq<nat>, u: string, work: Checkpoint, v: string, other: Checkpoint)
    requires v != u && Loaded(ids, d, v, other)
    ensures Loaded(ids, LoadOne(ids, retain, d, t, u, work).dicts, v, other)
  {
    LoadOneTouchesOne(ids, retain, d, t, u, work, v);
    SameKeepsLoaded(ids, d, LoadOne(ids, retain, d, t, u, work).dicts, v, other);
  }

  /** From a registry of complete adapters to a registry of complete adapters. */
  lemma {:induction false} LoadsKeepAllComplete(ids: map<string, nat>, retain: bool, d: Dicts, t: seq<nat>, work: seq<(string, Checkpoint)>)
    requires AllSound(d, retain, t) && AllNew(d, work) && Distinct(Firsts(work)) && LoadEach(ids, retain, d, t, work).ok
    requires AllComplete(d)
    ensures AllComplete(LoadEach(ids, retain, d, t, work).dicts)
  {
    LoadEachCompletes(ids, retain, d, t, work);
    LoadEachKeepsSound(ids, retain, d, t, work);
    var r := LoadEach(ids, retain, d, t, work).dicts;
    forall u | u in r.lowRanks ensures Complete(r, u) {
      if u in d.lowRanks {
        assert Complete(d, u) && Same(d, r, u);
      }
    }
  }

  function AsSet(s: seq<string>): set<string> {
    set u | u in s
  }

  lemma UidsAreFirsts(work: seq<(string, Checkpoint)>)
    ensures Uids(work) == AsSet(Firsts(work))
  {
    forall u | u in Uids(work) ensures u in Firsts(work) {
      var i :| 0 <= i < |work| && work[i].0 == u;
      assert Firsts(work)[i] == u;
    }
  }

  /** What one call of a loader does to the dictionaries, for the uids it picked. */
  lemma {:induction false} LoaderOutcome(ids: map<string, nat>, retain: bool, d: Dicts, t: seq<nat>, work: seq<(string, Checkpoint)>)
    requires AllSound(d, retain, t) && (forall u :: u in Firsts(work) ==> u !in d.lowRanks)
    ensures var r := LoadEach(ids, retain, d, t, work);
            && AllSound(r.dicts, retain, r.tensors)
            && (forall v :: v in d.lowRanks ==> Same(d, r.dicts, v))
            && (r.ok && Distinct(Firsts(work)) ==> Adds(d, r.dicts, AsSet(Firsts(work))))
            && (r.ok && Distinct(Firsts(work)) && AllComplete(d) ==> AllComplete(r.dicts))
  {
    assert AllNew(d, work) by {
      forall i | 0 <= i < |work| ensures work[i].0 !in d.lowRanks {
        assert Firsts(work)[i] == work[i].0;
      }
    }
    LoadEachKeepsSound(ids, retain, d, t, work);
    UidsAreFirsts(work);
    if LoadEach(ids, retain, d, t, work).ok && Distinct(Firsts(work)) {
      LoadEachCompletes(ids, retain, d, t, work);
      if AllComplete(d) {
        LoadsKeepAllComplete(ids, retain, d, t, work);
      }
    }
  }

  lemma {:induction false} LoadEachStops(ids: map<string, nat>, retain: bool, d: Dicts, t: seq<nat>, work: seq<(string, Checkpoint)>, n: nat)
    requires n <= |work| && !LoadEach(ids, retain, d, t, work[..n]).ok
    ensures LoadEach(ids, retain, d, t, work) == LoadEach(ids, retain, d, t, work[..n])
    decreases |work|
  {
    if n == |work| {
      assert work[..n] == work;
    } else {
      assert work[..|work| - 1][..n] == work[..n];
      LoadEachStops(ids, retain, d, t, work[..|work| - 1], n);
    }
  }
}
