/** The managed-weights file: an 8-byte little-endian header length, the JSON header, and the weight data. */
module ManagedWeights {
  import opened Wrappers
  import opened Json

  type Byte = b: nat | b < 256

  datatype DType = F32 | F16 | BF16 | F8 | I64 | I32 | I8 | OtherType
  datatype Weight = Weight(dtype: DType, shape: seq<nat>, data: seq<Byte>)
  datatype Named = Named(name: string, weight: Weight)

  const METADATA_KEY := "__metadata__"
  const LENGTH_LIMIT: nat := 0x1_0000_0000_0000_0000

  function ItemSize(d: DType): nat {
    match d
    case F32 => 4
    case F16 => 2
    case BF16 => 2
    case F8 => 1
    case I64 => 8
    case I32 => 4
    case I8 => 1
    case OtherType => 1
  }

  function Volume(shape: seq<nat>): nat {
    if shape == [] then 1 else shape[0] * Volume(shape[1..])
  }

  /** An array's buffer holds its elements and nothing else. */
  predicate WellShaped(w: Weight) {
    |w.data| == Volume(w.shape) * ItemSize(w.dtype)
  }

  // ----- Bytes -----

  function ToLittleEndian(n: nat, count: nat): (bs: seq<Byte>)
    ensures |bs| == count
  {
    if count == 0 then [] else [n % 256] + ToLittleEndian(n / 256, count - 1)
  }

  function FromLittleEndian(bs: seq<Byte>): nat {
    if bs == [] then 0 else bs[0] + 256 * FromLittleEndian(bs[1..])
  }

  function Encode(s: string): seq<Byte>
    requires Ascii(s)
  {
    seq(|s|, i requires 0 <= i < |s| => s[i] as int)
  }

  predicate Continues(b: Byte) { 0x80 <= b < 0xC0 }

  function SixBits(b: Byte): (n: nat)
    requires Continues(b)
    ensures n < 0x40
  {
    b - 0x80
  }

  /** One decoded character and the number of bytes it took. */
  datatype Scanned = Scanned(c: char, count: nat)

  function AsChar(v: nat): Option<char> {
    if v < 0xD800 || 0xE000 <= v < 0x11_0000 then Some(v as char) else None
  }

  /** Section 3 of RFC 3629: the first character, unless it is malformed, overlong or a surrogate. */
  function DecodeOne(bs: seq<Byte>): (r: Option<Scanned>)
    requires bs != []
    ensures r.Some? ==> 0 < r.value.count <= |bs|
  {
    var b: int := bs[0];
    if b < 0x80 then Some(Scanned(b as char, 1))
    else if 0xC2 <= b < 0xE0 && |bs| >= 2 && Continues(bs[1]) then
      Some(Scanned(((b - 0xC0) * 0x40 + SixBits(bs[1])) as char, 2))
    else if 0xE0 <= b < 0xF0 && |bs| >= 3 && Continues(bs[1]) && Continues(bs[2]) then
      var v := (b - 0xE0) * 0x1000 + SixBits(bs[1]) * 0x40 + SixBits(bs[2]);
      if v < 0x800 || AsChar(v).None? then None else Some(Scanned(AsChar(v).value, 3))
    else if 0xF0 <= b < 0xF5 && |bs| >= 4 && Continues(bs[1]) && Continues(bs[2]) && Continues(bs[3]) then
      var v := (b - 0xF0) * 0x4_0000 + SixBits(bs[1]) * 0x1000 + SixBits(bs[2]) * 0x40 + SixBits(bs[3]);
      if v < 0x1_0000 || AsChar(v).None? then None else Some(Scanned(AsChar(v).value, 4))
    else None
  }

  function Decode(bs: seq<Byte>): Option<string>
    decreases |bs|
  {
    if bs == [] then Some("")
    else
      var first := DecodeOne(bs);
      if first.None? then None
      else
        var rest := Decode(bs[first.value.count..]);
        if rest.None? then None else Some([first.value.c] + rest.value)
  }

  /** Up to `count` bytes from `at`: a read stops at the end of the file. */
  function ReadAt(file: seq<Byte>, at: nat, count: nat): seq<Byte> {
    var from := if at < |file| then at else |file|;
    var to := if at + count < |file| then at + count else |file|;
    file[from..to]
  }

  // ----- Writing -----

  function WriterTag(d: DType): Option<string> {
    match d
    case F32 => Some("F32")
    case F16 => Some("F16")
    case BF16 => Some("BF16")
    case F8 => Some("F8_E4M3")
    case I64 => Some("I64")
    case I32 => Some("I32")
    case I8 => Some("I8")
    case OtherType => None
  }

  function Numbers(ns: seq<nat>): seq<Json> {
    seq(|ns|, i requires 0 <= i < |ns| => Num(ns[i]))
  }

  function Info(tag: string, shape: seq<nat>, begin: nat, end: nat): Json {
    Obj([Member("dtype", Str(tag)), Member("shape", Arr(Numbers(shape))),
         Member("data_offsets", Arr([Num(begin), Num(end)]))])
  }

  function InitialHeader(metadata: Option<Json>): seq<Member> {
    if metadata.None? then [] else [Member(METADATA_KEY, metadata.value)]
  }

  /** The header dictionary, from the part built so far and the data written so far. */
  function HeaderFrom(header: seq<Member>, begin: nat, weights: seq<Named>): Option<seq<Member>>
    decreases |weights|
  {
    if weights == [] then Some(header)
    else
      var w := weights[0].weight;
      match WriterTag(w.dtype)
      case None => None
      case Some(tag) =>
        var end := begin + |w.data|;
        HeaderFrom(SetItem(header, Member(weights[0].name, Info(tag, w.shape, begin, end))), end, weights[1..])
  }

  function Data(weights: seq<Named>): seq<Byte> {
    if weights == [] then [] else weights[0].weight.data + Data(weights[1..])
  }

  function FileWith(header: seq<Member>, weights: seq<Named>): Result<seq<Byte>> {
    var text := Dump(Obj(header));
    DumpAscii(Obj(header));
    if |text| >= LENGTH_LIMIT then Raised
    else Ok(ToLittleEndian(|text|, 8) + Encode(text) + Data(weights))
  }

  function FileOf(weights: seq<Named>, metadata: Option<Json>): Result<seq<Byte>> {
    var header := HeaderFrom(InitialHeader(metadata), 0, weights);
    if header.None? then Raised else FileWith(header.value, weights)
  }

  method SerializeManagedWeights(weights: seq<Named>, metadata: Option<Json>)
    returns (file: Result<seq<Byte>>)
    ensures file == FileOf(weights, metadata)
  {
    var header := InitialHeader(metadata);
    var begin: nat := 0;
    for i := 0 to |weights|
      invariant HeaderFrom(header, begin, weights[i..]) == HeaderFrom(InitialHeader(metadata), 0, weights)
    {
      var w := weights[i].weight;
      assert weights[i..][0] == weights[i] && weights[i..][1..] == weights[i + 1..];
      var tag := WriterTag(w.dtype);
      if tag.None? {
        return Raised;
      }
      header := SetItem(header, Member(weights[i].name, Info(tag.value, w.shape, begin, begin + |w.data|)));
      begin := begin + |w.data|;
    }
    var text := Dump(Obj(header));
    DumpAscii(Obj(header));
    if |text| >= LENGTH_LIMIT {
      return Raised;
    }
    var bytes := ToLittleEndian(|text|, 8) + Encode(text);
    ghost var front := bytes;
    for i := 0 to |weights|
      invariant bytes + Data(weights[i..]) == front + Data(weights)
    {
      assert weights[i..][1..] == weights[i + 1..];
      assert bytes + Data(weights[i..]) == bytes + weights[i].weight.data + Data(weights[i + 1..]);
      bytes := bytes + weights[i].weight.data;
    }
    assert bytes + Data([]) == bytes;
    return Ok(bytes);
  }

  // ----- Reading -----

  /** The reader knows every tag the writer uses except I8. */
  function ReaderType(tag: string): Option<DType> {
    if tag == "F32" then Some(F32)
    else if tag == "F16" then Some(F16)
    else if tag == "BF16" then Some(BF16)
    else if tag == "F8_E4M3" then Some(F8)
    else if tag == "I64" then Some(I64)
    else if tag == "I32" then Some(I32)
    else None
  }

  function Lookup(members: seq<Member>, key: string): Option<Json> {
    if members == [] then None
    else if members[0].key == key then Some(members[0].value)
    else Lookup(members[1..], key)
  }

  function IntegerOf(v: Json): Option<int> {
    match v
    case Num(n) => Some(n)
    case Neg(m) => var magnitude: int := m; Some(-magnitude)
    case _ => None
  }

  /** An offset; the two truth values count as 1 and 0 in arithmetic. */
  function OffsetOf(v: Json): Option<int> {
    if v == Word("true") then Some(1) else if v == Word("false") then Some(0) else IntegerOf(v)
  }

  predicate AllIntegers(items: seq<Json>) {
    forall i :: 0 <= i < |items| ==> IntegerOf(items[i]).Some?
  }

  function Dimensions(shape: seq<Json>): seq<int>
    requires AllIntegers(shape)
  {
    seq(|shape|, i requires 0 <= i < |shape| => IntegerOf(shape[i]).value)
  }

  /** The shape argument: a list of integers, or one integer. */
  function ShapeOf(shape: Json): Option<seq<int>> {
    if shape.Arr? then if AllIntegers(shape.items) then Some(Dimensions(shape.items)) else None
    else if IntegerOf(shape).Some? then Some([IntegerOf(shape).value])
    else None
  }

  /** How many dimensions are negative, that is, left to be found. */
  function Unknowns(dims: seq<int>): nat {
    if dims == [] then 0 else (if dims[0] < 0 then 1 else 0) + Unknowns(dims[1..])
  }

  function KnownVolume(dims: seq<int>): nat {
    if dims == [] then 1 else (if dims[0] < 0 then 1 else dims[0]) * KnownVolume(dims[1..])
  }

  function Filled(dims: seq<int>, missing: nat): seq<nat> {
    seq(|dims|, i requires 0 <= i < |dims| => if dims[i] < 0 then missing else dims[i])
  }

  /** The shape an array of `count` elements takes, or None where it cannot. */
  function Reshape(dims: seq<int>, count: nat): Option<seq<nat>> {
    var known := KnownVolume(dims);
    if Unknowns(dims) == 0 then if known == count then Some(Filled(dims, 0)) else None
    else if Unknowns(dims) == 1 && known > 0 && count % known == 0 then Some(Filled(dims, count / known))
    else None
  }

  /** The bytes between two offsets; a difference of -1 reads to the end, any other negative number raises. */
  function ReadRange(file: seq<Byte>, headerLength: nat, begin: int, end: int): Option<seq<Byte>> {
    var at := begin + headerLength + 8;
    if at < 0 || end - begin < -1 then None
    else if end < begin then Some(ReadAt(file, at, |file|))
    else Some(ReadAt(file, at, end - begin))
  }

  function ReadArray(dtype: DType, dims: seq<int>, data: seq<Byte>): Option<Weight> {
    if |data| % ItemSize(dtype) != 0 then None
    else
      var shape := Reshape(dims, |data| / ItemSize(dtype));
      if shape.None? then None else Some(Weight(dtype, shape.value, data))
  }

  /** One weight, or None where the source raises. */
  function ReadEntry(info: Json, file: seq<Byte>, headerLength: nat): Option<Weight> {
    if !info.Obj? then None
    else
      match (Lookup(info.members, "dtype"), Lookup(info.members, "shape"), Lookup(info.members, "data_offsets"))
      case (Some(Str(tag)), Some(shape), Some(Arr(offsets))) =>
        if ReaderType(tag).None? || ShapeOf(shape).None? || |offsets| < 2 then None
        else ReadChecked(ReaderType(tag).value, ShapeOf(shape).value, OffsetOf(offsets[0]), OffsetOf(offsets[1]), file, headerLength)
      case _ => None
  }

  function ReadChecked(dtype: DType, dims: seq<int>, begin: Option<int>, end: Option<int>, file: seq<Byte>, headerLength: nat): Option<Weight> {
    if begin.None? || end.None? then None
    else
      var data := ReadRange(file, headerLength, begin.value, end.value);
      if data.None? then None else ReadArray(dtype, dims, data.value)
  }

  function ReadMembers(members: seq<Member>, file: seq<Byte>, headerLength: nat): Result<map<string, Weight>>
    decreases |members|
  {
    if members == [] then Ok(map[])
    else
      var last := members[|members| - 1];
      var before := ReadMembers(members[..|members| - 1], file, headerLength);
      var entry := ReadEntry(last.value, file, headerLength);
      if before.Raised? || entry.None? then Raised else Ok(before.value[last.key := entry.value])
  }

  function HeaderLength(file: seq<Byte>): nat {
    FromLittleEndian(ReadAt(file, 0, 8))
  }

  function HeaderOf(file: seq<Byte>): Option<seq<Member>> {
    match Decode(ReadAt(file, 8, HeaderLength(file)))
    case None => None
    case Some(text) =>
      match Parse(text)
      case Some(Obj(members)) => Some(members)
      case _ => None
  }

  function ReadFile(file: seq<Byte>): Result<map<string, Weight>> {
    var header := HeaderOf(file);
    if header.None? then Raised else ReadMembers(header.value, file, HeaderLength(file))
  }

  method ReadEntries(members: seq<Member>, file: seq<Byte>, headerLength: nat)
    returns (weights: Result<map<string, Weight>>)
    ensures weights == ReadMembers(members, file, headerLength)
  {
    var managed: map<string, Weight> := map[];
    for i := 0 to |members|
      invariant ReadMembers(members[..i], file, headerLength) == Ok(managed)
    {
      assert members[..i + 1][..i] == members[..i];
      var entry := ReadEntry(members[i].value, file, headerLength);
      if entry.None? {
        RaisesOnce(members, file, headerLength, i);
        return Raised;
      }
      managed := managed[members[i].key := entry.value];
    }
    assert members[..|members|] == members;
    return Ok(managed);
  }

  method DeserializeManagedWeights(file: seq<Byte>) returns (weights: Result<map<string, Weight>>)
    ensures weights == ReadFile(file)
  {
    var header := HeaderOf(file);
    if header.None? {
      return Raised;
    }
    weights := ReadEntries(header.value, file, HeaderLength(file));
  }

  lemma {:induction false} RaisesOnce(members: seq<Member>, file: seq<Byte>, headerLength: nat, i: nat)
    requires i < |members| && ReadEntry(members[i].value, file, headerLength).None?
    ensures ReadMembers(members, file, headerLength).Raised?
    decreases |members|
  {
    if i < |members| - 1 {
      RaisesOnce(members[..|members| - 1], file, headerLength, i);
    }
  }
}
