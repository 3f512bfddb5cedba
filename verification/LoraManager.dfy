/** The LoRA manager as the object it is: loaders that fill its dictionaries in loops, and the buffers read from them. */
module LoraManagers {
  import opened Wrappers
  import opened LoraAdapter
  import opened LoraRegistry
  import opened LoraBuffers
  import Json
  import opened Arithmetic

  /** The ranks and the weight pointers of one module of one layer, one row per request. */
  datatype Column = Column(ranks: seq<nat>, pointers: seq<Pointers>)

  /** What a loader that returns `r` has done: adapters loaded before are unchanged, and the returned uids, when they
      are different, are exactly what was added, each completely loaded. */
  ghost predicate LoadedBy(d: Dicts, e: Dicts, r: Result<seq<string>>) {
    && (forall v :: v in d.lowRanks ==> Same(d, e, v))
    && (r.Ok? && Distinct(r.value) ==> Adds(d, e, AsSet(r.value)) && (AllComplete(d) ==> AllComplete(e)))
  }

  lemma NothingAdded(d: Dicts)
    ensures LoadedBy(d, d, Ok([])) && LoadedBy(d, d, Raised)
  {
    assert AsSet([]) == {};
  }

  /** The uids that the counters from `first` up to `end` print to. */
  ghost function Printed(first: nat, end: nat): set<string>
    requires first <= end
    decreases end
  {
    if first == end then {} else Printed(first, end - 1) + {Json.Digits(end - 1)}
  }

  lemma {:induction false} PrintedAll(first: nat, end: nat)
    requires first <= end
    ensures forall n: nat {:trigger Json.Digits(n)} :: first <= n < end ==> Json.Digits(n) in Printed(first, end)
    decreases end
  {
    if first < end {
      PrintedAll(first, end - 1);
    }
  }

  lemma {:induction false} NotPrinted(first: nat, end: nat, n: nat)
    requires first <= end <= n
    ensures Json.Digits(n) !in Printed(first, end)
    decreases end
  {
    if first < end {
      NotPrinted(first, end - 1, n);
      if Json.Digits(n) == Json.Digits(end - 1) {
        DigitsInjective(n, end - 1);
      }
    }
  }

  lemma PrintedNext(first: nat, end: nat)
    requires first <= end
    ensures Printed(first, end + 1) == Printed(first, end) + {Json.Digits(end)} && Json.Digits(end) !in Printed(first, end)
  {
    NotPrinted(first, end, end);
  }

  predicate AllConfigsReadable(picked: seq<(string, HfDir)>) {
    forall i :: 0 <= i < |picked| ==> picked[i].1.configReadable
  }

  class LoraManager {
    const moduleIds: map<string, nat>
    const retain: bool
    var counter: nat
    var dicts: Dicts
    var tensors: seq<nat>
    var targetModules: seq<string>

    ghost predicate Valid()
      reads this
    {
      AllSound(dicts, retain, tensors)
    }

    constructor (moduleIds: map<string, nat>, retain: bool)
      ensures Valid() && AllComplete(dicts) && dicts.lowRanks == map[]
      ensures this.moduleIds == moduleIds && this.retain == retain
    {
      this.moduleIds := moduleIds;
      this.retain := retain;
      counter, tensors, targetModules := 0, [], [];
      dicts := Dicts(map[], map[], map[], map[]);
    }

    // ----- Loading -----

    /** From dictionaries `d` and tensors `t`, the load of `u` has come as far as `a`; no other uid is touched. */
    ghost predicate Loading(u: string, d: Dicts, t: seq<nat>, a: Adapter)
      reads this
    {
      dicts == Put(d, u, a) && tensors == t + a.tensors
    }

    /** One entry of one layer, written straight into the dictionaries. */
    method ApplyEntry(u: string, ghost d: Dicts, ghost t: seq<nat>, ghost a: Adapter, layer: nat, e: Entry) returns (ok: bool)
      requires Loading(u, d, t, a) && Opened(a, layer)
      modifies this`dicts, this`tensors
      ensures ok == Apply(moduleIds, retain, a, layer, e).ok
      ensures Loading(u, d, t, Apply(moduleIds, retain, a, layer, e).adapter)
    {
      match e
      case Failing =>
        ok := false;
      case Skip(lora) =>
        SetRank(u, d, t, a, layer, lora, 0);
        ok := true;
      case Record(lora, w, _) =>
        SetRank(u, d, t, a, layer, lora, w.rank);
        ghost var b := a.(ranks := PutRank(a.ranks, layer, lora, w.rank));
        if retain {
          SetPointers(u, d, t, b, layer, lora, w);
          b := b.(pointers := PutPointers(b.pointers, layer, lora, PointersOf(w)), tensors := b.tensors + TensorsOf(w));
        }
        ok := AppendRows(u, d, t, b, layer, e);
    }

    method SetRank(u: string, ghost d: Dicts, ghost t: seq<nat>, ghost a: Adapter, layer: nat, lora: string, rank: nat)
      requires Loading(u, d, t, a) && Opened(a, layer)
      modifies this`dicts
      ensures Loading(u, d, t, a.(ranks := PutRank(a.ranks, layer, lora, rank)))
    {
      PutTwice(d, u, a, a.(ranks := PutRank(a.ranks, layer, lora, rank)));
      dicts := dicts.(lowRanks := dicts.lowRanks[u := PutRank(dicts.lowRanks[u], layer, lora, rank)]);
    }

    method SetPointers(u: string, ghost d: Dicts, ghost t: seq<nat>, ghost a: Adapter, layer: nat, lora: string, w: Matrices)
      requires Loading(u, d, t, a) && Opened(a, layer)
      modifies this`dicts, this`tensors
      ensures Loading(u, d, t, a.(pointers := PutPointers(a.pointers, layer, lora, PointersOf(w)), tensors := a.tensors + TensorsOf(w)))
    {
      PutTwice(d, u, a, a.(pointers := PutPointers(a.pointers, layer, lora, PointersOf(w))));
      dicts := dicts.(pointers := dicts.pointers[u := PutPointers(dicts.pointers[u], layer, lora, PointersOf(w))]);
      tensors := tensors + TensorsOf(w);
    }

    /** The weight row, then the config row: the second can fail after the first went through. */
    method AppendRows(u: string, ghost d: Dicts, ghost t: seq<nat>, ghost a: Adapter, layer: nat, e: Entry) returns (ok: bool)
      requires Loading(u, d, t, a) && e.Record?
      modifies this`dicts
      ensures ok <==> a.weights.Filling? && a.config.Filling? && e.lora in moduleIds
      ensures Loading(u, d, t, a.(
                weights := if a.weights.Stacked? then a.weights else Filling(a.weights.rows + [RowOf(e.weights)]),
                config := if !ok then a.config else Filling(a.config.rows + [ConfigOf(moduleIds, layer, e)])))
    {
      if dicts.weights[u].Stacked? {
        return false;
      }
      ghost var b := a.(weights := Filling(a.weights.rows + [RowOf(e.weights)]));
      PutTwice(d, u, a, b);
      dicts := dicts.(weights := dicts.weights[u := Filling(dicts.weights[u].rows + [RowOf(e.weights)])]);
      if e.lora !in moduleIds || dicts.config[u].Stacked? {
        return false;
      }
      PutTwice(d, u, b, b.(config := Filling(b.config.rows + [ConfigOf(moduleIds, layer, e)])));
      dicts := dicts.(config := dicts.config[u := Filling(dicts.config[u].rows + [ConfigOf(moduleIds, layer, e)])]);
      return true;
    }

    method OpenLayer(u: string, ghost d: Dicts, ghost t: seq<nat>, ghost a: Adapter, layer: nat)
      requires Loading(u, d, t, a)
      modifies this`dicts
      ensures Loading(u, d, t, Open(a, layer))
    {
      PutTwice(d, u, a, Open(a, layer));
      dicts := dicts.(lowRanks := dicts.lowRanks[u := OpenRanks(dicts.lowRanks[u], layer)],
                      pointers := dicts.pointers[u := OpenPointers(dicts.pointers[u], layer)]);
    }

    /** The modules of one layer, up to the first that fails. */
    method ApplyLayer(u: string, ghost d: Dicts, ghost t: seq<nat>, ghost a: Adapter, l: Layer) returns (ok: bool)
      requires Loading(u, d, t, a)
      modifies this`dicts, this`tensors
      ensures ok == ApplyAll(moduleIds, retain, Open(a, l.index), l.index, l.entries).ok
      ensures Loading(u, d, t, ApplyAll(moduleIds, retain, Open(a, l.index), l.index, l.entries).adapter)
    {
      ghost var start := Open(a, l.index);
      OpenLayer(u, d, t, a, l.index);
      ghost var current := start;
      for j := 0 to |l.entries|
        invariant ApplyAll(moduleIds, retain, start, l.index, l.entries[..j]) == Progress(current, true)
        invariant Loading(u, d, t, current)
      {
        ApplyAllNext(moduleIds, retain, start, l.index, l.entries, j);
        ghost var next := Apply(moduleIds, retain, current, l.index, l.entries[j]);
        ok := ApplyEntry(u, d, t, current, l.index, l.entries[j]);
        current := next.adapter;
        if !ok {
          ApplyAllStops(moduleIds, retain, start, l.index, l.entries, j + 1);
          return;
        }
      }
      assert l.entries[..|l.entries|] == l.entries;
      ok := true;
    }

    /** Every layer, up to the first that fails. */
    method ApplyLayers(u: string, ghost d: Dicts, ghost t: seq<nat>, ghost a: Adapter, layers: seq<Layer>) returns (ok: bool)
      requires Loading(u, d, t, a)
      modifies this`dicts, this`tensors
      ensures ok == Load(moduleIds, retain, a, layers).ok
      ensures Loading(u, d, t, Load(moduleIds, retain, a, layers).adapter)
    {
      for i := 0 to |layers|
        invariant Load(moduleIds, retain, a, layers[..i]).ok
        invariant Loading(u, d, t, Load(moduleIds, retain, a, layers[..i]).adapter)
      {
        assert layers[..i + 1][..i] == layers[..i];
        ok := ApplyLayer(u, d, t, Load(moduleIds, retain, a, layers[..i]).adapter, layers[i]);
        if !ok {
          LoadStops(moduleIds, retain, a, layers, i + 1);
          return;
        }
      }
      assert layers[..|layers|] == layers;
      ok := true;
    }

    /** Loads one checkpoint under `u`, changing the dictionaries as it goes. */
    method LoadAdapter(u: string, work: Checkpoint) returns (ok: bool)
      modifies this`dicts, this`tensors
      ensures Outcome(dicts, tensors, ok) == LoadOne(moduleIds, retain, old(dicts), old(tensors), u, work)
    {
      ghost var d, t := dicts, tensors;
      ghost var a := Begin(d, u);
      if u !in dicts.weights {
        dicts := dicts.(weights := dicts.weights[u := Filling([])]);
      }
      if u !in dicts.config {
        dicts := dicts.(config := dicts.config[u := Filling([])]);
      }
      assert dicts == WithLists(d, u);
      if work.Unreadable? {
        return false;
      }
      dicts := dicts.(lowRanks := dicts.lowRanks[u := map[]], pointers := dicts.pointers[u := map[]]);
      ok := ApplyLayers(u, d, t, a, work.layers);
      if ok {
        ok := StackTables(u, d, t, Load(moduleIds, retain, a, work.layers).adapter);
      }
    }

    /** Pads the rows to one width and stacks them; no rows at all is an error. */
    method StackTables(u: string, ghost d: Dicts, ghost t: seq<nat>, ghost a: Adapter) returns (ok: bool)
      requires Loading(u, d, t, a)
      modifies this`dicts
      ensures ok == Finish(Progress(a, true)).ok && Loading(u, d, t, Finish(Progress(a, true)).adapter)
    {
      if dicts.weights[u].rows == [] {
        return false;
      }
      PutTwice(d, u, a, Finish(Progress(a, true)).adapter);
      dicts := dicts.(weights := dicts.weights[u := Stacked(Stack(dicts.weights[u].rows))],
                      config := dicts.config[u := Stacked(dicts.config[u].rows)]);
      return true;
    }

    // ----- Uids -----

    /** The search for an unused uid ends: only finitely many are taken. */
    method GenerateUid() returns (uid: string)
      modifies this`counter
      ensures uid !in dicts.lowRanks
      ensures old(counter) < counter && uid == Json.Digits(counter - 1)
      ensures forall n: nat :: old(counter) <= n < counter - 1 ==> Json.Digits(n) in dicts.lowRanks
    {
      while Json.Digits(counter) in dicts.lowRanks
        invariant old(counter) <= counter && Printed(old(counter), counter) <= dicts.lowRanks.Keys
        decreases |dicts.lowRanks.Keys - Printed(old(counter), counter)|
      {
        PrintedNext(old(counter), counter);
        StrictlySmallerRest(dicts.lowRanks.Keys, Printed(old(counter), counter), Printed(old(counter), counter + 1),
                            Json.Digits(counter));
        counter := counter + 1;
      }
      PrintedAll(old(counter), counter);
      uid := Json.Digits(counter);
      counter := counter + 1;
    }

    /** Generated uids are unused and pairwise different. */
    method GenerateUids(n: nat) returns (uids: seq<string>)
      modifies this`counter
      ensures |uids| == n && Distinct(uids)
      ensures forall u :: u in uids ==> u !in dicts.lowRanks
    {
      uids := [];
      ghost var numbers: seq<nat> := [];
      for i := 0 to n
        invariant |uids| == i && |numbers| == i
        invariant forall u :: u in uids ==> u !in dicts.lowRanks
        invariant forall j :: 0 <= j < i ==> uids[j] == Json.Digits(numbers[j]) && numbers[j] < counter
        invariant Distinct(uids)
      {
        ghost var before := counter;
        var uid := GenerateUid();
        forall j | 0 <= j < i ensures uids[j] != uid {
          if uids[j] == uid {
            DigitsInjective(numbers[j], counter - 1);
          }
        }
        uids, numbers := uids + [uid], numbers + [counter - 1];
      }
    }

    // ----- The loaders -----

    /** The uids that are not loaded yet, with their files. */
    method FilterNew<T>(uids: seq<string>, files: seq<T>) returns (picked: seq<(string, T)>)
      requires |uids| == |files|
      ensures picked == Pick(uids, files, dicts.lowRanks.Keys)
    {
      picked := [];
      for i := 0 to |uids|
        invariant picked == Pick(uids[..i], files[..i], dicts.lowRanks.Keys)
      {
        assert uids[..i + 1][..i] == uids[..i] && files[..i + 1][..i] == files[..i];
        if uids[i] in dicts.lowRanks {
          continue;
        }
        picked := picked + [(uids[i], files[i])];
      }
      assert uids[..|uids|] == uids && files[..|files|] == files;
    }

    method LoadNew(work: seq<(string, Checkpoint)>) returns (ok: bool)
      modifies this`dicts, this`tensors
      ensures Outcome(dicts, tensors, ok) == LoadEach(moduleIds, retain, old(dicts), old(tensors), work)
    {
      for i := 0 to |work|
        invariant Outcome(dicts, tensors, true) == LoadEach(moduleIds, retain, old(dicts), old(tensors), work[..i])
      {
        assert work[..i + 1][..i] == work[..i];
        ok := LoadAdapter(work[i].0, work[i].1);
        if !ok {
          LoadEachStops(moduleIds, retain, old(dicts), old(tensors), work, i + 1);
          return;
        }
      }
      assert work[..|work|] == work;
      ok := true;
    }

    /** Loads work under uids that are not loaded yet. */
    method LoadPicked(work: seq<(string, Checkpoint)>) returns (r: Result<seq<string>>)
      requires Valid() && forall u :: u in Firsts(work) ==> u !in dicts.lowRanks
      modifies this`dicts, this`tensors
      ensures Valid() && LoadedBy(old(dicts), dicts, r)
      ensures r.Ok? ==> r.value == Firsts(work)
      ensures Outcome(dicts, tensors, r.Ok?) == LoadEach(moduleIds, retain, old(dicts), old(tensors), work)
    {
      LoaderOutcome(moduleIds, retain, dicts, tensors, work);
      var ok := LoadNew(work);
      r := if ok then Ok(Firsts(work)) else Raised;
    }

    /** The uids to load under: the given ones, or generated ones; a wrong number of them is an error. */
    method ChooseUids(n: nat, given: Option<seq<string>>) returns (uids: Result<seq<string>>)
      modifies this`counter
      ensures given.Some? ==> uids == if |given.value| == n then Ok(given.value) else Raised
      ensures given.None? ==> uids.Ok? && |uids.value| == n && Distinct(uids.value)
      ensures given.None? ==> forall u :: u in uids.value ==> u !in dicts.lowRanks
    {
      if given.None? {
        var generated := GenerateUids(n);
        return Ok(generated);
      }
      uids := if |given.value| == n then Ok(given.value) else Raised;
    }

    /** The uids of one call that are to be loaded, with their files. */
    method Select<T>(files: seq<T>, given: Option<seq<string>>) returns (picked: Result<seq<(string, T)>>)
      modifies this`counter
      ensures picked.Raised? <==> given.Some? && |given.value| != |files|
      ensures picked.Ok? ==> forall u :: u in Firsts(picked.value) ==> u !in dicts.lowRanks
      ensures picked.Ok? && given.Some? ==> picked.value == Pick(given.value, files, dicts.lowRanks.Keys)
      ensures picked.Ok? && given.Some? ==> forall u :: u in Firsts(picked.value) <==> u in given.value && u !in dicts.lowRanks
      ensures picked.Ok? && given.None? ==>
                |picked.value| == |files| && picked.value == Paired(Firsts(picked.value), files)
      ensures picked.Ok? && (given.None? || Distinct(given.value)) ==> Distinct(Firsts(picked.value))
    {
      var uids := ChooseUids(|files|, given);
      if uids.Raised? {
        return Raised;
      }
      PickMeans(uids.value, files, dicts.lowRanks.Keys);
      if Distinct(uids.value) {
        PickDistinct(uids.value, files, dicts.lowRanks.Keys);
      }
      if given.None? {
        PickAll(uids.value, files, dicts.lowRanks.Keys);
      }
      var unloaded := FilterNew(uids.value, files);
      assert given.None? ==> |Firsts(unloaded)| == |files|;
      picked := Ok(unloaded);
    }

    /** Reads the config of every adapter before anything is loaded. */
    method ReadConfigs(picked: seq<(string, HfDir)>) returns (readable: bool)
      ensures readable <==> AllConfigsReadable(picked)
    {
      for i := 0 to |picked|
        invariant forall j :: 0 <= j < i ==> picked[j].1.configReadable
      {
        if !picked[i].1.configReadable {
          return false;
        }
      }
      return true;
    }

    /** Loads Hugging Face adapters; returns the uids that this call loaded. */
    method LoadFromHf(dirs: seq<HfDir>, target: seq<string>, given: Option<seq<string>>) returns (r: Result<seq<string>>)
      requires Valid()
      modifies this`counter, this`dicts, this`tensors, this`targetModules
      ensures Valid() && LoadedBy(old(dicts), dicts, r)
      ensures given.Some? && |given.value| != |dirs| ==> r.Raised? && dicts == old(dicts)
      ensures given.Some? && |given.value| == |dirs| ==>
                var picked := Pick(given.value, dirs, old(dicts).lowRanks.Keys);
                if AllConfigsReadable(picked)
                then && Outcome(dicts, tensors, r.Ok?) == LoadEach(moduleIds, retain, old(dicts), old(tensors), HfPlan(target, picked))
                     && targetModules == (if picked == [] then old(targetModules) else target)
                else r.Raised? && dicts == old(dicts) && tensors == old(tensors) && targetModules == old(targetModules)
      ensures r.Ok? && given.Some? ==> forall u :: u in r.value <==> u in given.value && u !in old(dicts).lowRanks
      ensures r.Ok? && given.None? ==>
                && |r.value| == |dirs|
                && Outcome(dicts, tensors, true)
                   == LoadEach(moduleIds, retain, old(dicts), old(tensors), HfPlan(target, Paired(r.value, dirs)))
      ensures r.Ok? ==> targetModules == if r.value == [] then old(targetModules) else target
      ensures r.Ok? && (given.None? || Distinct(given.value)) ==> Distinct(r.value)
    {
      NothingAdded(dicts);
      var selected := Select(dirs, given);
      if selected.Raised? {
        return Raised;
      }
      var picked := selected.value;
      if picked == [] {
        return Ok([]);
      }
      r := LoadHfDirs(picked, target);
    }

    method LoadHfDirs(picked: seq<(string, HfDir)>, target: seq<string>) returns (r: Result<seq<string>>)
      requires Valid() && forall u :: u in Firsts(picked) ==> u !in dicts.lowRanks
      modifies this`dicts, this`tensors, this`targetModules
      ensures Valid() && LoadedBy(old(dicts), dicts, r)
      ensures r.Ok? ==> r.value == Firsts(picked)
      ensures if AllConfigsReadable(picked)
              then && Outcome(dicts, tensors, r.Ok?) == LoadEach(moduleIds, retain, old(dicts), old(tensors), HfPlan(target, picked))
                   && targetModules == target
              else r.Raised? && dicts == old(dicts) && tensors == old(tensors) && targetModules == old(targetModules)
    {
      NothingAdded(dicts);
      var readable := ReadConfigs(picked);
      if !readable {
        return Raised;
      }
      targetModules := target;
      assert Firsts(HfPlan(target, picked)) == Firsts(picked);
      r := LoadPicked(HfPlan(target, picked));
    }

    /** Loads NeMo adapters; returns the uids that this call loaded. */
    method LoadFromNemo(files: seq<NemoFile>, target: seq<string>, given: Option<seq<string>>) returns (r: Result<seq<string>>)
      requires Valid()
      modifies this`counter, this`dicts, this`tensors, this`targetModules
      ensures Valid() && LoadedBy(old(dicts), dicts, r)
      ensures given.Some? && |given.value| != |files| ==> r.Raised? && dicts == old(dicts)
      ensures given.Some? && |given.value| == |files| ==>
                var picked := Pick(given.value, files, old(dicts).lowRanks.Keys);
                && Outcome(dicts, tensors, r.Ok?) == LoadEach(moduleIds, retain, old(dicts), old(tensors), NemoPlan(target, picked))
                && targetModules == (if picked == [] then old(targetModules) else target)
      ensures r.Ok? && given.Some? ==> forall u :: u in r.value <==> u in given.value && u !in old(dicts).lowRanks
      ensures r.Ok? && given.None? ==>
                && |r.value| == |files|
                && Outcome(dicts, tensors, true)
                   == LoadEach(moduleIds, retain, old(dicts), old(tensors), NemoPlan(target, Paired(r.value, files)))
      ensures r.Ok? ==> targetModules == if r.value == [] then old(targetModules) else target
      ensures r.Ok? && (given.None? || Distinct(given.value)) ==> Distinct(r.value)
    {
      NothingAdded(dicts);
      var selected := Select(files, given);
      if selected.Raised? {
        return Raised;
      }
      var picked := selected.value;
      if picked == [] {
        return Ok([]);
      }
      targetModules := target;
      assert Firsts(NemoPlan(target, picked)) == Firsts(picked);
      r := LoadPicked(NemoPlan(target, picked));
    }

    // ----- Input buffers -----

    /** What the engine gets for one uid: no adapter, or the rank and pointers of one module of one layer. */
    function Lookup(u: string, layer: nat, lora: string): Result<(nat, Pointers)>
      reads this
    {
      if u == NO_ADAPTER then Ok((0, NO_POINTERS))
      else if u !in dicts.lowRanks then Raised
      else
        var ranks := dicts.lowRanks[u];
        if layer !in ranks || lora !in ranks[layer] || ranks[layer][lora] == 0 then Ok((0, NO_POINTERS))
        else if u in dicts.pointers && layer in dicts.pointers[u] && lora in dicts.pointers[u][layer]
        then Ok((ranks[layer][lora], dicts.pointers[u][layer][lora]))
        else Raised
    }

    /** A lookup gives the row that fits the dictionaries, and raises exactly if there is none. With device tensors
        retained, only a uid that was never registered misses, and every pointer handed out is that of a tensor the
        manager keeps. */
    lemma LookupNeverMisses(u: string, layer: nat, lora: string)
      ensures var r := Lookup(u, layer, lora);
        && (r.Raised? <==> NoRow(dicts, u, layer, lora))
        && (r.Ok? ==> RowFits(dicts, u, layer, lora, r.value.0, r.value.1))
      ensures Valid() && retain ==>
        && (NoRow(dicts, u, layer, lora) <==> u != NO_ADAPTER && u !in dicts.lowRanks)
        && (Lookup(u, layer, lora).Ok? && Lookup(u, layer, lora).value.0 != 0 ==>
              PointersKept(Lookup(u, layer, lora).value.1, tensors))
    {
      if Valid() && u in dicts.lowRanks {
        assert SoundAt(dicts, retain, tensors, u);
      }
    }

    predicate ColumnFits(c: Column, uids: seq<string>, layer: nat, lora: string)
      reads this
    {
      && |c.ranks| == |uids| == |c.pointers|
      && forall i :: 0 <= i < |uids| ==> RowFits(dicts, uids[i], layer, lora, c.ranks[i], c.pointers[i])
    }

    method ReadColumn(uids: seq<string>, layer: nat, lora: string) returns (c: Result<Column>)
      ensures c.Ok? ==> ColumnFits(c.value, uids, layer, lora)
      ensures c.Raised? ==> exists i :: 0 <= i < |uids| && NoRow(dicts, uids[i], layer, lora)
    {
      var ranks, ptrs := [], [];
      for i := 0 to |uids|
        invariant |ranks| == i == |ptrs|
        invariant forall j :: 0 <= j < i ==> RowFits(dicts, uids[j], layer, lora, ranks[j], ptrs[j])
      {
        LookupNeverMisses(uids[i], layer, lora);
        var entry := Lookup(uids[i], layer, lora);
        if entry.Raised? {
          return Raised;
        }
        ranks, ptrs := ranks + [entry.value.0], ptrs + [entry.value.1];
      }
      c := Ok(Column(ranks, ptrs));
    }

    /** One column of ranks and pointers per layer and module, one row per uid, each with what the dictionaries hold.
        With device tensors retained it raises only for a uid that is not registered. */
    method InputBuffers(uids: seq<string>, layers: seq<nat>, missing: seq<string>) returns (r: Result<map<(nat, string), Column>>)
      requires Valid()
      ensures r.Ok? ==> forall l, m :: (l, m) in r.value <==> l in layers && m in targetModules + missing
      ensures r.Ok? ==> forall k :: k in r.value ==> ColumnFits(r.value[k], uids, k.0, k.1)
      ensures r.Raised? ==> exists u, l, m :: u in uids && l in layers && m in targetModules + missing && NoRow(dicts, u, l, m)
      ensures retain && (forall u :: u in uids ==> u == NO_ADAPTER || u in dicts.lowRanks) ==> r.Ok?
    {
      var inputs: map<(nat, string), Column> := map[];
      var modules := targetModules + missing;
      for i := 0 to |layers|
        invariant forall l, m :: (l, m) in inputs <==> l in layers[..i] && m in modules
        invariant forall k :: k in inputs ==> ColumnFits(inputs[k], uids, k.0, k.1)
      {
        for j := 0 to |modules|
          invariant forall l, m :: (l, m) in inputs <==> (l in layers[..i] && m in modules) || (l == layers[i] && m in modules[..j])
          invariant forall k :: k in inputs ==> ColumnFits(inputs[k], uids, k.0, k.1)
        {
          var c := ReadColumn(uids, layers[i], modules[j]);
          if c.Raised? {
            ghost var n :| 0 <= n < |uids| && NoRow(dicts, uids[n], layers[i], modules[j]);
            if retain {
              LookupNeverMisses(uids[n], layers[i], modules[j]);
            }
            return Raised;
          }
          inputs := inputs[(layers[i], modules[j]) := c.value];
        }
      }
      r := Ok(inputs);
    }
  }
}
