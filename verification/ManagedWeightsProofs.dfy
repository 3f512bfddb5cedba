/** Reading a written managed-weights file gives the weights back, and exactly when it does. */
module ManagedWeightsProofs {
  import opened Arithmetic
  import opened Wrappers
  import opened Json
  import opened ManagedWeights

  predicate DistinctNames(weights: seq<Named>) {
    forall i, j :: 0 <= i < j < |weights| ==> weights[i].name != weights[j].name
  }

  predicate HasName(weights: seq<Named>, name: string) {
    exists i :: 0 <= i < |weights| && weights[i].name == name
  }

  function ToMap(weights: seq<Named>): map<string, Weight> {
    if weights == [] then map[] else ToMap(weights[1..])[weights[0].name := weights[0].weight]
  }

  // ----- Bytes -----

  function Power256(k: nat): nat {
    if k == 0 then 1 else 256 * Power256(k - 1)
  }

  lemma {:induction false} LittleEndianRoundTrip(n: nat, count: nat)
    requires n < Power256(count)
    ensures FromLittleEndian(ToLittleEndian(n, count)) == n
    decreases count
  {
    if count > 0 {
      LittleEndianRoundTrip(n / 256, count - 1);
    }
  }

  lemma EightBytes()
    ensures Power256(8) == LENGTH_LIMIT
  {
    assert Power256(4) == 0x1_0000_0000;
    assert Power256(6) == 0x1_0000_0000_0000;
  }

  lemma {:induction false} EncodeRoundTrip(s: string)
    requires Ascii(s)
    ensures Decode(Encode(s)) == Some(s)
  {
    if s == "" {
      assert Encode(s) == [];
    } else {
      assert Encode(s)[0] == s[0] as int && Encode(s)[1..] == Encode(s[1..]);
      EncodeRoundTrip(s[1..]);
      assert DecodeOne(Encode(s)) == Some(Scanned(s[0], 1));
      assert s == [s[0]] + s[1..];
    }
  }

  lemma ReadAtMiddle(a: seq<Byte>, b: seq<Byte>, c: seq<Byte>)
    ensures ReadAt(a + b + c, |a|, |b|) == b
  {
    var file := a + b + c;
    assert file[|a|..|a| + |b|] == b;
  }

  // ----- Dictionaries as maps -----

  function AsMap(members: seq<Member>): map<string, Json> {
    if members == [] then map[] else AsMap(members[1..])[members[0].key := members[0].value]
  }

  lemma {:induction false} AsMapKeys(members: seq<Member>, key: string)
    ensures key in AsMap(members) <==> exists i :: 0 <= i < |members| && members[i].key == key
  {
    if members != [] {
      AsMapKeys(members[1..], key);
      if key in AsMap(members[1..]) {
        var i :| 0 <= i < |members[1..]| && members[1..][i].key == key;
        assert members[i + 1].key == key;
      }
      if exists i :: 0 <= i < |members| && members[i].key == key {
        var i :| 0 <= i < |members| && members[i].key == key;
        if i > 0 { assert members[1..][i - 1].key == key; }
      }
    }
  }

  lemma {:induction false} AsMapValue(members: seq<Member>, i: nat)
    requires DistinctKeys(members) && i < |members|
    ensures members[i].key in AsMap(members) && AsMap(members)[members[i].key] == members[i].value
    decreases |members|
  {
    if i > 0 {
      assert members[1..][i - 1] == members[i];
      AsMapValue(members[1..], i - 1);
    }
  }

  /** Dictionary assignment on the list is assignment on the map, and keeps keys distinct. */
  lemma {:induction false} SetItemIsUpdate(members: seq<Member>, m: Member)
    requires DistinctKeys(members)
    ensures DistinctKeys(SetItem(members, m)) && AsMap(SetItem(members, m)) == AsMap(members)[m.key := m.value]
  {
    if members != [] {
      var rest := members[1..];
      if members[0].key == m.key {
        assert ([m] + rest)[1..] == rest;
      } else {
        SetItemIsUpdate(rest, m);
        var after := SetItem(rest, m);
        assert ([members[0]] + after)[1..] == after;
        forall i | 0 <= i < |after| ensures after[i].key != members[0].key {
          AsMapKeys(after, after[i].key);
          AsMapKeys(rest, after[i].key);
          if after[i].key != m.key {
            var j :| 0 <= j < |rest| && rest[j].key == after[i].key;
            assert members[j + 1].key == after[i].key;
          }
        }
      }
    }
  }

  // ----- The header -----

  /** The header entries of the weights, when `begin` bytes of data precede them. */
  function Entries(begin: nat, weights: seq<Named>): map<string, Json>
    requires forall i :: 0 <= i < |weights| ==> WriterTag(weights[i].weight.dtype).Some?
    decreases |weights|
  {
    if weights == [] then map[]
    else
      var w := weights[0].weight;
      var end := begin + |w.data|;
      map[weights[0].name := Info(WriterTag(w.dtype).value, w.shape, begin, end)] + Entries(end, weights[1..])
  }

  predicate Writable(weights: seq<Named>) {
    forall i :: 0 <= i < |weights| ==> WriterTag(weights[i].weight.dtype).Some?
  }

  lemma UpdateThenMerge(m: map<string, Json>, key: string, value: Json, more: map<string, Json>)
    ensures m[key := value] + more == m + (map[key := value] + more)
  {
  }

  lemma {:induction false} HeaderExists(header: seq<Member>, begin: nat, weights: seq<Named>)
    ensures HeaderFrom(header, begin, weights).Some? <==> Writable(weights)
    decreases |weights|
  {
    if weights != [] && WriterTag(weights[0].weight.dtype).Some? {
      var w := weights[0].weight;
      var end := begin + |w.data|;
      HeaderExists(SetItem(header, Member(weights[0].name, Info(WriterTag(w.dtype).value, w.shape, begin, end))),
                   end, weights[1..]);
      assert forall i :: 1 <= i < |weights| ==> weights[i] == weights[1..][i - 1];
    }
  }

  lemma {:induction false} HeaderIsMap(header: seq<Member>, begin: nat, weights: seq<Named>)
    requires DistinctKeys(header)
    ensures HeaderFrom(header, begin, weights).Some? <==> Writable(weights)
    ensures Writable(weights) ==>
      var h := HeaderFrom(header, begin, weights).value;
      DistinctKeys(h) && AsMap(h) == AsMap(header) + Entries(begin, weights)
    decreases |weights|
  {
    HeaderExists(header, begin, weights);
    if Writable(weights) && weights != [] {
      var w := weights[0].weight;
      var end := begin + |w.data|;
      var m := Member(weights[0].name, Info(WriterTag(w.dtype).value, w.shape, begin, end));
      SetItemIsUpdate(header, m);
      HeaderIsMap(SetItem(header, m), end, weights[1..]);
      UpdateThenMerge(AsMap(header), m.key, m.value, Entries(end, weights[1..]));
    }
  }

  lemma {:induction false} EntriesKeys(begin: nat, weights: seq<Named>, key: string)
    requires Writable(weights)
    ensures key in Entries(begin, weights) <==> HasName(weights, key)
    decreases |weights|
  {
    if weights != [] {
      var end := begin + |weights[0].weight.data|;
      EntriesKeys(end, weights[1..], key);
      if HasName(weights, key) {
        var i :| 0 <= i < |weights| && weights[i].name == key;
        if i > 0 { assert weights[1..][i - 1].name == key; }
      }
      if HasName(weights[1..], key) {
        var i :| 0 <= i < |weights[1..]| && weights[1..][i].name == key;
        assert weights[i + 1].name == key;
      }
    }
  }

  /** Offsets are contiguous: each weight starts where the data of the ones before it ends. */
  lemma {:induction false} EntryOffsets(begin: nat, weights: seq<Named>, i: nat)
    requires Writable(weights) && DistinctNames(weights) && i < |weights|
    ensures var w := weights[i].weight;
      var at := begin + |Data(weights[..i])|;
      && weights[i].name in Entries(begin, weights)
      && Entries(begin, weights)[weights[i].name] == Info(WriterTag(w.dtype).value, w.shape, at, at + |w.data|)
    decreases |weights|
  {
    if i == 0 {
      FirstEntry(begin, weights);
    } else {
      EntryOffsets(begin + |weights[0].weight.data|, weights[1..], i - 1);
      DataOfPrefix(weights, i);
      LaterEntry(begin, weights, weights[i].name);
    }
  }

  lemma FirstEntry(begin: nat, weights: seq<Named>)
    requires Writable(weights) && DistinctNames(weights) && weights != []
    ensures var w := weights[0].weight;
      && weights[0].name in Entries(begin, weights)
      && Entries(begin, weights)[weights[0].name] == Info(WriterTag(w.dtype).value, w.shape, begin, begin + |w.data|)
  {
    EntriesKeys(begin + |weights[0].weight.data|, weights[1..], weights[0].name);
  }

  lemma LaterEntry(begin: nat, weights: seq<Named>, name: string)
    requires Writable(weights) && weights != [] && name in Entries(begin + |weights[0].weight.data|, weights[1..])
    ensures name in Entries(begin, weights)
    ensures Entries(begin, weights)[name] == Entries(begin + |weights[0].weight.data|, weights[1..])[name]
  {
  }

  lemma {:induction false} DataOfPrefix(weights: seq<Named>, i: nat)
    requires 0 < i <= |weights|
    ensures |Data(weights[..i])| == |weights[0].weight.data| + |Data(weights[1..][..i - 1])|
  {
    assert weights[..i][1..] == weights[1..][..i - 1];
  }

  lemma {:induction false} DataSlice(weights: seq<Named>, i: nat)
    requires i < |weights|
    ensures var at := |Data(weights[..i])|;
      at + |weights[i].weight.data| <= |Data(weights)|
      && Data(weights)[at..at + |weights[i].weight.data|] == weights[i].weight.data
    decreases |weights|
  {
    if i == 0 {
      assert weights[..0] == [];
    } else {
      DataSlice(weights[1..], i - 1);
      assert weights[..i][1..] == weights[1..][..i - 1];
      assert weights[1..][i - 1] == weights[i];
    }
  }

  lemma InfoWellFormed(tag: string, shape: seq<nat>, begin: nat, end: nat)
    ensures WellFormed(Info(tag, shape, begin, end))
  {
    var members := Info(tag, shape, begin, end).members;
    assert members[0].key == "dtype" && members[1].key == "shape" && members[2].key == "data_offsets";
    assert |"dtype"| == 5 && |"shape"| == 5 && "dtype"[0] == 'd' && "shape"[0] == 's' && |"data_offsets"| == 12;
    assert DistinctKeys(members);
  }

  /** The metadata, if any, is a JSON value: no object in it repeats a key. */
  predicate ProperMetadata(metadata: Option<Json>) {
    metadata.Some? ==> WellFormed(metadata.value)
  }

  lemma MetadataWellFormed(metadata: Option<Json>)
    requires ProperMetadata(metadata)
    ensures DistinctKeys(InitialHeader(metadata))
    ensures forall key :: key in AsMap(InitialHeader(metadata)) ==> WellFormed(AsMap(InitialHeader(metadata))[key])
  {
  }

  lemma {:induction false} EntryWellFormed(weights: seq<Named>, key: string)
    requires Writable(weights) && DistinctNames(weights) && key in Entries(0, weights)
    ensures WellFormed(Entries(0, weights)[key])
  {
    EntriesKeys(0, weights, key);
    var j :| 0 <= j < |weights| && weights[j].name == key;
    EntryOffsets(0, weights, j);
    var at := |Data(weights[..j])|;
    InfoWellFormed(WriterTag(weights[j].weight.dtype).value, weights[j].weight.shape, at, at + |weights[j].weight.data|);
  }

  lemma HeaderWellFormed(weights: seq<Named>, metadata: Option<Json>)
    requires Writable(weights) && DistinctNames(weights) && ProperMetadata(metadata)
    ensures DistinctKeys(InitialHeader(metadata))
    ensures HeaderFrom(InitialHeader(metadata), 0, weights).Some?
    ensures WellFormed(Obj(HeaderFrom(InitialHeader(metadata), 0, weights).value))
  {
    var start := InitialHeader(metadata);
    MetadataWellFormed(metadata);
    HeaderIsMap(start, 0, weights);
    var h := HeaderFrom(start, 0, weights).value;
    forall i | 0 <= i < |h| ensures WellFormed(h[i].value) {
      AsMapValue(h, i);
      if h[i].key in Entries(0, weights) { EntryWellFormed(weights, h[i].key); }
    }
  }

  // ----- Reading it back -----

  lemma InfoLookups(tag: string, shape: seq<nat>, begin: nat, end: nat)
    ensures var members := Info(tag, shape, begin, end).members;
      && Lookup(members, "dtype") == Some(Str(tag))
      && Lookup(members, "shape") == Some(Arr(Numbers(shape)))
      && Lookup(members, "data_offsets") == Some(Arr([Num(begin), Num(end)]))
  {
    assert "dtype"[0] == 'd' && "shape"[0] == 's' && |"data_offsets"| == 12 && |"dtype"| == 5 && |"shape"| == 5;
    assert "dtype" != "shape" && "dtype" != "data_offsets" && "shape" != "data_offsets";
    var members := Info(tag, shape, begin, end).members;
    var rest := members[1..];
    assert rest[0] == members[1] && rest[1..][0] == members[2];
    assert Lookup(rest, "data_offsets") == Lookup(rest[1..], "data_offsets");
  }

  lemma ReaderKnowsWriterTags(d: DType)
    requires WriterTag(d).Some?
    ensures ReaderType(WriterTag(d).value) == if d.I8? then None else Some(d)
  {
  }

  /** A header entry reads back as the weight it describes, unless that is int8. */
  lemma EntryReadsBack(w: Weight, file: seq<Byte>, headerLength: nat, at: nat)
    requires WriterTag(w.dtype).Some? && WellShaped(w)
    requires ReadAt(file, at + headerLength + 8, |w.data|) == w.data
    ensures ReadEntry(Info(WriterTag(w.dtype).value, w.shape, at, at + |w.data|), file, headerLength)
            == if w.dtype.I8? then None else Some(w)
  {
    var tag := WriterTag(w.dtype).value;
    InfoLookups(tag, w.shape, at, at + |w.data|);
    ReaderKnowsWriterTags(w.dtype);
    ShapeReadsBack(w.shape, Volume(w.shape));
    ExactQuotient(Volume(w.shape), ItemSize(w.dtype));
    var offsets := [Num(at), Num(at + |w.data|)];
    assert OffsetOf(offsets[0]) == Some(at) && OffsetOf(offsets[1]) == Some(at + |w.data|);
    assert ReadRange(file, headerLength, at, at + |w.data|) == Some(w.data);
  }

  /** The bytes of the file from `begin` to `end` behind the header, as far as the file goes. */
  function Between(file: seq<Byte>, headerLength: nat, begin: nat, end: nat): seq<Byte>
    requires begin <= end
  {
    var from, to := begin + headerLength + 8, end + headerLength + 8;
    if |file| <= from then [] else if |file| <= to then file[from..] else file[from..to]
  }

  /** An entry of the writer's form, in any file: it reads as the bytes between its offsets exactly if the reader knows its
      type and these bytes, perhaps cut short by the end of the file, fill its shape. */
  lemma EntryOutcome(tag: string, shape: seq<nat>, begin: nat, end: nat, file: seq<Byte>, headerLength: nat)
    requires begin <= end
    ensures var data := Between(file, headerLength, begin, end);
      ReadEntry(Info(tag, shape, begin, end), file, headerLength)
      == if ReaderType(tag).Some? && |data| == Volume(shape) * ItemSize(ReaderType(tag).value)
         then Some(Weight(ReaderType(tag).value, shape, data)) else None
  {
    var data := Between(file, headerLength, begin, end);
    InfoLookups(tag, shape, begin, end);
    var offsets := [Num(begin), Num(end)];
    assert OffsetOf(offsets[0]) == Some(begin) && OffsetOf(offsets[1]) == Some(end);
    var from, to := begin + headerLength + 8, end + headerLength + 8;
    assert |file| <= from ==> file[|file|..|file|] == [];
    assert from < |file| <= to ==> file[from..|file|] == file[from..];
    assert ReadRange(file, headerLength, begin, end) == Some(data);
    if ReaderType(tag).Some? {
      ArrayOutcome(ReaderType(tag).value, shape, data);
    }
  }

  lemma ArrayOutcome(dtype: DType, shape: seq<nat>, data: seq<Byte>)
    ensures (forall i :: 0 <= i < |Numbers(shape)| ==> IntegerOf(Numbers(shape)[i]).Some?)
    ensures ReadArray(dtype, Dimensions(Numbers(shape)), data)
      == if |data| == Volume(shape) * ItemSize(dtype) then Some(Weight(dtype, shape, data)) else None
  {
    var size := ItemSize(dtype);
    ShapeReadsBack(shape, |data| / size);
    if |data| % size == 0 {
      assert |data| == |data| / size * size;
      if |data| == Volume(shape) * size {
        ExactQuotient(Volume(shape), size);
      }
    } else {
      ExactQuotient(Volume(shape), size);
    }
  }

  lemma {:induction false} KnownDimensions(shape: seq<nat>)
    ensures Unknowns(shape) == 0 && KnownVolume(shape) == Volume(shape)
  {
    if shape != [] { KnownDimensions(shape[1..]); }
  }

  lemma ShapeReadsBack(shape: seq<nat>, count: nat)
    ensures ShapeOf(Arr(Numbers(shape))).Some?
    ensures Reshape(ShapeOf(Arr(Numbers(shape))).value, count) == if count == Volume(shape) then Some(shape) else None
  {
    assert Dimensions(Numbers(shape)) == shape;
    KnownDimensions(shape);
    assert Filled(shape, 0) == shape;
  }

  /** Metadata whose values are all strings is no weight entry. */
  lemma StringMetadataUnreadable(members: seq<Member>, file: seq<Byte>, headerLength: nat)
    requires forall i :: 0 <= i < |members| ==> members[i].value.Str?
    ensures ReadEntry(Obj(members), file, headerLength).None?
  {
    LookupIsString(members, "shape");
  }

  lemma {:induction false} LookupIsString(members: seq<Member>, key: string)
    requires forall i :: 0 <= i < |members| ==> members[i].value.Str?
    ensures Lookup(members, key).Some? ==> Lookup(members, key).value.Str?
  {
    if members != [] { LookupIsString(members[1..], key); }
  }

  ghost predicate EntryReadable(members: seq<Member>, i: nat, file: seq<Byte>, headerLength: nat)
    requires i < |members|
  {
    ReadEntry(members[i].value, file, headerLength).Some?
  }

  /** Reading goes through exactly when every entry is readable. */
  ghost predicate AllReadable(members: seq<Member>, count: nat, file: seq<Byte>, headerLength: nat)
    requires count <= |members|
  {
    forall i {:trigger EntryReadable(members, i, file, headerLength)} :: 0 <= i < count ==>
      EntryReadable(members, i, file, headerLength)
  }

  lemma {:induction false} AllReadableBefore(members: seq<Member>, file: seq<Byte>, headerLength: nat)
    requires members != []
    ensures var last := |members| - 1;
      AllReadable(members, |members|, file, headerLength) <==>
      AllReadable(members[..last], last, file, headerLength) && ReadEntry(members[last].value, file, headerLength).Some?
  {
    var last := |members| - 1;
    var before := members[..last];
    assert EntryReadable(members, last, file, headerLength) <==>
           ReadEntry(members[last].value, file, headerLength).Some?;
    assert forall i :: 0 <= i < last ==>
      (EntryReadable(before, i, file, headerLength) <==> EntryReadable(members, i, file, headerLength));
  }

  lemma {:induction false} ReadGoesThrough(members: seq<Member>, file: seq<Byte>, headerLength: nat)
    ensures ReadMembers(members, file, headerLength).Ok? <==> AllReadable(members, |members|, file, headerLength)
    decreases |members|
  {
    if members != [] {
      ReadGoesThrough(members[..|members| - 1], file, headerLength);
      AllReadableBefore(members, file, headerLength);
    }
  }

  /** What a member's key is bound to after reading. */
  lemma {:induction false} ReadValue(members: seq<Member>, file: seq<Byte>, headerLength: nat, i: nat)
    requires DistinctKeys(members) && i < |members| && ReadMembers(members, file, headerLength).Ok?
    ensures var r := ReadMembers(members, file, headerLength).value;
      && EntryReadable(members, i, file, headerLength)
      && members[i].key in r && r[members[i].key] == ReadEntry(members[i].value, file, headerLength).value
    decreases |members|
  {
    if i < |members| - 1 {
      ReadValue(members[..|members| - 1], file, headerLength, i);
    }
  }

  lemma {:induction false} ReadKeys(members: seq<Member>, file: seq<Byte>, headerLength: nat, key: string)
    requires ReadMembers(members, file, headerLength).Ok?
    ensures key in ReadMembers(members, file, headerLength).value ==> exists i :: 0 <= i < |members| && members[i].key == key
    decreases |members|
  {
    if members != [] {
      var last := |members| - 1;
      if members[last].key != key {
        ReadKeys(members[..last], file, headerLength, key);
        if key in ReadMembers(members[..last], file, headerLength).value {
          var i :| 0 <= i < last && members[..last][i].key == key;
          assert members[i].key == key;
        }
      }
    }
  }

  lemma {:induction false} ToMapContents(weights: seq<Named>, key: string)
    requires DistinctNames(weights)
    ensures key in ToMap(weights) <==> HasName(weights, key)
    ensures forall i :: 0 <= i < |weights| && weights[i].name == key ==> ToMap(weights)[key] == weights[i].weight
    decreases |weights|
  {
    if weights != [] {
      var rest := weights[1..];
      ToMapContents(rest, key);
      forall i | 0 <= i < |weights| && weights[i].name == key ensures ToMap(weights)[key] == weights[i].weight {
        if i > 0 { assert rest[i - 1] == weights[i]; }
      }
      if HasName(weights, key) {
        var i :| 0 <= i < |weights| && weights[i].name == key;
        if i > 0 { assert rest[i - 1].name == key; }
      }
      if HasName(rest, key) {
        var i :| 0 <= i < |rest| && rest[i].name == key;
        assert weights[i + 1].name == key;
      }
    }
  }

  /** The reader finds the writer's header. */
  lemma HeaderFound(header: seq<Member>, weights: seq<Named>)
    requires WellFormed(Obj(header)) && FileWith(header, weights).Ok?
    ensures var file := FileWith(header, weights).value;
      HeaderLength(file) == |Dump(Obj(header))| && HeaderOf(file) == Some(header)
  {
    var text := Dump(Obj(header));
    DumpAscii(Obj(header));
    DumpParses(Obj(header));
    TextFound(text, Data(weights));
  }

  /** The length and the text in front of the data are found again. */
  lemma TextFound(text: string, data: seq<Byte>)
    requires Ascii(text) && |text| < LENGTH_LIMIT
    ensures var file := ToLittleEndian(|text|, 8) + Encode(text) + data;
      HeaderLength(file) == |text| && Decode(ReadAt(file, 8, |text|)) == Some(text)
  {
    EncodeRoundTrip(text);
    EightBytes();
    LittleEndianRoundTrip(|text|, 8);
    FrontRead(ToLittleEndian(|text|, 8), Encode(text), data);
  }

  lemma FrontRead(size: seq<Byte>, body: seq<Byte>, data: seq<Byte>)
    ensures ReadAt(size + body + data, 0, |size|) == size && ReadAt(size + body + data, |size|, |body|) == body
  {
    assert size + body + data == [] + size + (body + data);
    ReadAtMiddle([], size, body + data);
    ReadAtMiddle(size, body, data);
  }

  /** Weight `i`'s bytes are where the header says. */
  ghost predicate DataAt(weights: seq<Named>, file: seq<Byte>, i: nat)
    requires i < |weights|
  {
    ReadAt(file, |Data(weights[..i])| + HeaderLength(file) + 8, |weights[i].weight.data|) == weights[i].weight.data
  }

  lemma DataFound(header: seq<Member>, weights: seq<Named>, i: nat)
    requires WellFormed(Obj(header)) && FileWith(header, weights).Ok? && i < |weights|
    ensures DataAt(weights, FileWith(header, weights).value, i)
  {
    HeaderFound(header, weights);
    var text := Dump(Obj(header));
    DumpAscii(Obj(header));
    SliceBehind(ToLittleEndian(|text|, 8) + Encode(text), weights, i);
  }

  lemma SliceBehind(front: seq<Byte>, weights: seq<Named>, i: nat)
    requires i < |weights|
    ensures ReadAt(front + Data(weights), |Data(weights[..i])| + |front|, |weights[i].weight.data|) == weights[i].weight.data
  {
    DataSlice(weights, i);
    ReadAtBehind(front, Data(weights), |Data(weights[..i])|, |weights[i].weight.data|);
  }

  lemma ReadAtBehind(front: seq<Byte>, data: seq<Byte>, at: nat, count: nat)
    requires at + count <= |data|
    ensures ReadAt(front + data, at + |front|, count) == data[at..at + count]
  {
    assert (front + data)[at + |front|..at + |front| + count] == data[at..at + count];
  }

  predicate NoInt8(weights: seq<Named>) {
    forall i :: 0 <= i < |weights| ==> !weights[i].weight.dtype.I8?
  }

  /** A metadata entry is left in the header: no weight has taken its key. */
  predicate MetadataLeft(weights: seq<Named>, metadata: Option<Json>) {
    metadata.Some? && !HasName(weights, METADATA_KEY)
  }

  /** A header written for these weights, and a file that holds their bytes where the header says. */
  ghost predicate Written(weights: seq<Named>, metadata: Option<Json>, header: seq<Member>, file: seq<Byte>) {
    && Writable(weights) && DistinctNames(weights) && ProperMetadata(metadata)
    && (forall j :: 0 <= j < |weights| ==> WellShaped(weights[j].weight))
    && HeaderFrom(InitialHeader(metadata), 0, weights) == Some(header) && DistinctKeys(header)
    && forall j {:trigger DataAt(weights, file, j)} :: 0 <= j < |weights| ==> DataAt(weights, file, j)
  }

  /** A weight's header entry reads back as that weight, unless it is int8. */
  lemma {:induction false} WeightReads(weights: seq<Named>, metadata: Option<Json>, header: seq<Member>,
                    file: seq<Byte>, i: nat, j: nat)
    requires Written(weights, metadata, header, file) && i < |header| && j < |weights|
    requires weights[j].name == header[i].key
    ensures ReadEntry(header[i].value, file, HeaderLength(file)) ==
            if weights[j].weight.dtype.I8? then None else Some(weights[j].weight)
  {
    WeightEntry(weights, metadata, header, file, i, j);
    assert DataAt(weights, file, j);
    EntryReadsBack(weights[j].weight, file, HeaderLength(file), |Data(weights[..j])|);
  }

  /** The header entry of a weight gives its dtype, its shape and where its bytes are. */
  lemma {:induction false} WeightEntry(weights: seq<Named>, metadata: Option<Json>, header: seq<Member>,
                                       file: seq<Byte>, i: nat, j: nat)
    requires Written(weights, metadata, header, file) && i < |header| && j < |weights|
    requires weights[j].name == header[i].key
    ensures var w, at := weights[j].weight, |Data(weights[..j])|;
      header[i].value == Info(WriterTag(w.dtype).value, w.shape, at, at + |w.data|)
  {
    HeaderIsMap(InitialHeader(metadata), 0, weights);
    AsMapValue(header, i);
    EntryOffsets(0, weights, j);
  }

  /** Any other entry of the header is the metadata. */
  lemma OtherEntryIsMetadata(weights: seq<Named>, metadata: Option<Json>, header: seq<Member>, file: seq<Byte>, i: nat)
    requires Written(weights, metadata, header, file) && i < |header| && !HasName(weights, header[i].key)
    ensures metadata == Some(header[i].value) && header[i].key == METADATA_KEY && MetadataLeft(weights, metadata)
  {
    var start := InitialHeader(metadata);
    HeaderIsMap(start, 0, weights);
    AsMapValue(header, i);
    EntriesKeys(0, weights, header[i].key);
    assert header[i].key in AsMap(start);
  }

  lemma HeaderNames(weights: seq<Named>, metadata: Option<Json>, header: seq<Member>, key: string)
    requires Writable(weights) && HeaderFrom(InitialHeader(metadata), 0, weights) == Some(header)
    ensures (exists i :: 0 <= i < |header| && header[i].key == key)
            <==> HasName(weights, key) || (metadata.Some? && key == METADATA_KEY)
  {
    var start := InitialHeader(metadata);
    HeaderIsMap(start, 0, weights);
    AsMapKeys(header, key);
    AsMapKeys(start, key);
    EntriesKeys(0, weights, key);
    if metadata.Some? { assert start[0].key == METADATA_KEY; }
  }

  /** What the reader makes of the written header: the weights, and a metadata entry if one is left. */
  ghost function Expected(weights: seq<Named>, metadata: Option<Json>, file: seq<Byte>): map<string, Weight>
    requires MetadataLeft(weights, metadata) ==> ReadEntry(metadata.value, file, HeaderLength(file)).Some?
  {
    if MetadataLeft(weights, metadata)
    then ToMap(weights)[METADATA_KEY := ReadEntry(metadata.value, file, HeaderLength(file)).value]
    else ToMap(weights)
  }

  /** No weight is int8, and a metadata entry that is left looks like a weight. */
  ghost predicate Readable(weights: seq<Named>, metadata: Option<Json>, file: seq<Byte>) {
    NoInt8(weights) &&
    (MetadataLeft(weights, metadata) ==> ReadEntry(metadata.value, file, HeaderLength(file)).Some?)
  }

  lemma ReadableEntry(weights: seq<Named>, metadata: Option<Json>, header: seq<Member>, file: seq<Byte>, i: nat)
    requires Written(weights, metadata, header, file) && Readable(weights, metadata, file) && i < |header|
    ensures var e := Expected(weights, metadata, file);
      header[i].key in e && ReadEntry(header[i].value, file, HeaderLength(file)) == Some(e[header[i].key])
  {
    var key := header[i].key;
    if HasName(weights, key) {
      ToMapContents(weights, key);
      var j :| 0 <= j < |weights| && weights[j].name == key;
      WeightReads(weights, metadata, header, file, i, j);
    } else {
      OtherEntryIsMetadata(weights, metadata, header, file, i);
    }
  }

  lemma ReadableKeys(weights: seq<Named>, metadata: Option<Json>, header: seq<Member>, file: seq<Byte>, key: string)
    requires Written(weights, metadata, header, file) && Readable(weights, metadata, file)
    ensures key in Expected(weights, metadata, file) <==> exists i :: 0 <= i < |header| && header[i].key == key
  {
    HeaderNames(weights, metadata, header, key);
    ToMapContents(weights, key);
  }

  lemma ReadableFileReads(weights: seq<Named>, metadata: Option<Json>, header: seq<Member>, file: seq<Byte>)
    requires Written(weights, metadata, header, file) && Readable(weights, metadata, file)
    ensures ReadMembers(header, file, HeaderLength(file)) == Ok(Expected(weights, metadata, file))
  {
    var length, e := HeaderLength(file), Expected(weights, metadata, file);
    forall i | 0 <= i < |header| ensures EntryReadable(header, i, file, length) {
      ReadableEntry(weights, metadata, header, file, i);
    }
    ReadGoesThrough(header, file, length);
    var r := ReadMembers(header, file, length).value;
    forall key ensures key in r <==> key in e {
      ReadableKeys(weights, metadata, header, file, key);
      ReadKeys(header, file, length, key);
      if i :| 0 <= i < |header| && header[i].key == key {
        ReadValue(header, file, length, i);
      }
    }
    forall key | key in r ensures r[key] == e[key] {
      ReadKeys(header, file, length, key);
      var i :| 0 <= i < |header| && header[i].key == key;
      ReadValue(header, file, length, i);
      ReadableEntry(weights, metadata, header, file, i);
    }
    assert r == e;
  }

  lemma UnreadableFileRaises(weights: seq<Named>, metadata: Option<Json>, header: seq<Member>, file: seq<Byte>)
    requires Written(weights, metadata, header, file) && !Readable(weights, metadata, file)
    ensures ReadMembers(header, file, HeaderLength(file)).Raised?
  {
    if !NoInt8(weights) {
      var j :| 0 <= j < |weights| && weights[j].weight.dtype.I8?;
      HeaderNames(weights, metadata, header, weights[j].name);
      var i :| 0 <= i < |header| && header[i].key == weights[j].name;
      WeightReads(weights, metadata, header, file, i, j);
      RaisesOnce(header, file, HeaderLength(file), i);
    } else {
      HeaderNames(weights, metadata, header, METADATA_KEY);
      var i :| 0 <= i < |header| && header[i].key == METADATA_KEY;
      OtherEntryIsMetadata(weights, metadata, header, file, i);
      RaisesOnce(header, file, HeaderLength(file), i);
    }
  }

  lemma {:induction false} FileIsWritten(weights: seq<Named>, metadata: Option<Json>) returns (header: seq<Member>)
    requires DistinctNames(weights) && ProperMetadata(metadata) && FileOf(weights, metadata).Ok?
    requires forall i :: 0 <= i < |weights| ==> WellShaped(weights[i].weight)
    ensures var file := FileOf(weights, metadata).value;
      Written(weights, metadata, header, file) && HeaderOf(file) == Some(header)
  {
    HeaderIsMap(InitialHeader(metadata), 0, weights);
    HeaderWellFormed(weights, metadata);
    header := HeaderFrom(InitialHeader(metadata), 0, weights).value;
    var file := FileOf(weights, metadata).value;
    HeaderFound(header, weights);
    forall i | 0 <= i < |weights| ensures DataAt(weights, file, i) {
      DataFound(header, weights, i);
    }
  }

  /** Reading back a written file. It gives exactly the weights that were written if and only if none of them is int8
      and no metadata entry is left in the header. It raises if and only if some weight is int8, or a metadata entry is
      left that is not itself readable as a weight; a readable one comes back as one weight too many. */
  lemma {:induction false} RoundTrip(weights: seq<Named>, metadata: Option<Json>)
    requires DistinctNames(weights) && ProperMetadata(metadata)
    requires forall i :: 0 <= i < |weights| ==> WellShaped(weights[i].weight)
    requires FileOf(weights, metadata).Ok?
    ensures var file := FileOf(weights, metadata).value; var r := ReadFile(file);
      && (r == Ok(ToMap(weights)) <==> NoInt8(weights) && !MetadataLeft(weights, metadata))
      && (r.Raised? <==>
            (!NoInt8(weights) || (MetadataLeft(weights, metadata) && ReadEntry(metadata.value, file, HeaderLength(file)).None?)))
      && (r.Ok? && MetadataLeft(weights, metadata) ==>
            r.value == ToMap(weights)[METADATA_KEY := ReadEntry(metadata.value, file, HeaderLength(file)).value])
  {
    var header := FileIsWritten(weights, metadata);
    var file := FileOf(weights, metadata).value;
    if Readable(weights, metadata, file) {
      ReadableFileReads(weights, metadata, header, file);
      ToMapContents(weights, METADATA_KEY);
      if MetadataLeft(weights, metadata) {
        assert METADATA_KEY in Expected(weights, metadata, file) && METADATA_KEY !in ToMap(weights);
      }
    } else {
      UnreadableFileRaises(weights, metadata, header, file);
    }
  }

  /** Metadata can pass for a weight: an entry that describes the bytes of a written weight reads as that weight. */
  lemma MetadataCanBeAWeight(weights: seq<Named>, j: nat)
    requires DistinctNames(weights) && NoInt8(weights) && !HasName(weights, METADATA_KEY) && j < |weights|
    requires forall i :: 0 <= i < |weights| ==> WellShaped(weights[i].weight) && WriterTag(weights[i].weight.dtype).Some?
    requires var w := weights[j].weight; var at := |Data(weights[..j])|;
      FileOf(weights, Some(Info(WriterTag(w.dtype).value, w.shape, at, at + |w.data|))).Ok?
    ensures var w := weights[j].weight; var at := |Data(weights[..j])|;
      var metadata := Some(Info(WriterTag(w.dtype).value, w.shape, at, at + |w.data|));
      ReadFile(FileOf(weights, metadata).value) == Ok(ToMap(weights)[METADATA_KEY := w])
  {
    var w, at := weights[j].weight, |Data(weights[..j])|;
    var tag := WriterTag(w.dtype).value;
    var metadata := Some(Info(tag, w.shape, at, at + |w.data|));
    InfoWellFormed(tag, w.shape, at, at + |w.data|);
    var header := FileIsWritten(weights, metadata);
    var file := FileOf(weights, metadata).value;
    assert DataAt(weights, file, j);
    EntryReadsBack(w, file, HeaderLength(file), at);
    RoundTrip(weights, metadata);
  }

  /** Every weight has its own range of the data, each range starts where the one before it ends, and together
      they cover the data. */
  lemma OffsetsPartitionData(weights: seq<Named>, i: nat)
    requires Writable(weights) && DistinctNames(weights) && i < |weights|
    ensures weights[i].name in Entries(0, weights)
    ensures var w := weights[i].weight;
      && Entries(0, weights)[weights[i].name] ==
         Info(WriterTag(w.dtype).value, w.shape, |Data(weights[..i])|, |Data(weights[..i + 1])|)
      && (i == 0 ==> |Data(weights[..i])| == 0)
      && (i == |weights| - 1 ==> |Data(weights[..i + 1])| == |Data(weights)|)
  {
    EntryOffsets(0, weights, i);
    DataAppend(weights[..i], [weights[i]]);
    assert weights[..i] + [weights[i]] == weights[..i + 1];
    assert Data([weights[i]]) == weights[i].weight.data;
    if i == |weights| - 1 { assert weights[..i + 1] == weights; }
  }

  lemma {:induction false} DataAppend(a: seq<Named>, b: seq<Named>)
    ensures |Data(a + b)| == |Data(a)| + |Data(b)|
  {
    if a == [] {
      assert a + b == b;
    } else {
      DataAppend(a[1..], b);
      assert (a + b)[1..] == a[1..] + b;
    }
  }
}
