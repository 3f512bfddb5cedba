/** The bytes of a managed-weights file, spelled out: the safetensors layout that other readers rely on. */
module ManagedWeightsLayout {
  import opened Arithmetic
  import opened Wrappers
  import opened Json
  import opened ManagedWeights

  // ----- The length -----

  function Power(i: nat): (p: nat)
    ensures p > 0
  {
    if i == 0 then 1 else 256 * Power(i - 1)
  }

  lemma DivideTwice(n: nat, a: nat, b: nat)
    requires a > 0 && b > 0
    ensures a * b > 0 && n / a / b == n / (a * b)
  {
    var m, s := n / a, n % a;
    var q, r := m / b, m % b;
    Parts(n, a);
    Parts(m, b);
    Distribute(q, b, r, a, s);
    Smaller(r, b, a, s);
    Quotient(n, a * b, q, r * a + s);
  }

  lemma Parts(n: nat, d: nat)
    requires d > 0
    ensures n == n / d * d + n % d
  {
  }

  lemma Distribute(q: nat, b: nat, r: nat, a: nat, s: nat)
    ensures (q * b + r) * a + s == q * (a * b) + (r * a + s)
  {
  }

  lemma Smaller(r: nat, b: nat, a: nat, s: nat)
    requires r < b && s < a
    ensures r * a + s < a * b
  {
    assert (r + 1) * a <= b * a;
  }

  lemma Quotient(n: nat, d: nat, q: nat, r: nat)
    requires d > 0 && n == q * d + r && r < d
    ensures n / d == q
  {
    var k := n / d - q;
    assert k * d == r - n % d;
    Magnitude(k, d);
  }

  /** Byte `i` of the length is its `i`-th digit to the base 256, the lowest first. */
  lemma {:induction false} LengthByte(n: nat, count: nat, i: nat)
    requires i < count
    ensures ToLittleEndian(n, count)[i] == n / Power(i) % 256
    decreases count
  {
    if i > 0 {
      LengthByte(n / 256, count - 1, i - 1);
      DivideTwice(n, 256, Power(i - 1));
    }
  }

  /** Eight bytes of length, the header text as ASCII, and the data of the weights one behind the other. */
  lemma FileLayout(header: seq<Member>, weights: seq<Named>)
    requires FileWith(header, weights).Ok?
    ensures var file, text := FileWith(header, weights).value, Dump(Obj(header));
      && |file| == 8 + |text| + |Data(weights)|
      && (forall i :: 0 <= i < 8 ==> file[i] == |text| / Power(i) % 256)
      && (forall i :: 0 <= i < |text| ==> file[8 + i] == text[i] as int)
      && file[8 + |text|..] == Data(weights)
  {
    var file, text := FileWith(header, weights).value, Dump(Obj(header));
    DumpAscii(Obj(header));
    forall i | 0 <= i < 8 ensures file[i] == |text| / Power(i) % 256 {
      LengthByte(|text|, 8, i);
    }
    forall i | 0 <= i < |text| ensures file[8 + i] == text[i] as int {
      assert file[8 + i] == Encode(text)[i];
    }
  }

  // ----- The header text -----

  predicate Plain(s: string) {
    forall i :: 0 <= i < |s| ==> ' ' <= s[i] <= '~' && s[i] != '"' && s[i] != '\\'
  }

  lemma {:induction false} PlainText(s: string, tail: string)
    requires Plain(s)
    ensures EscapeTo(s, tail) == s + tail
  {
    if s == "" {
      assert s + tail == tail;
    } else {
      PlainText(s[1..], tail);
      assert Escape(s[0]) == [s[0]];
      assert s + tail == [s[0]] + (s[1..] + tail);
    }
  }

  function NumbersText(ns: seq<nat>): string {
    if ns == [] then "" else if |ns| == 1 then Digits(ns[0]) else Digits(ns[0]) + ", " + NumbersText(ns[1..])
  }

  lemma {:induction false} NumbersPrinted(ns: seq<nat>, tail: string)
    ensures ItemsTo(Numbers(ns), tail) == NumbersText(ns) + tail
    decreases |ns|
  {
    if |ns| > 1 {
      NumbersPrinted(ns[1..], tail);
      assert Numbers(ns)[1..] == Numbers(ns[1..]);
      FirstNumber(Digits(ns[0]), NumbersText(ns[1..]), tail);
    } else if |ns| == 1 {
      assert Numbers(ns)[0] == Num(ns[0]);
    }
  }

  lemma FirstNumber(first: string, rest: string, tail: string)
    ensures first + Spaced(',', rest + tail) == first + ", " + rest + tail
  {
    assert Spaced(',', rest + tail) == ", " + (rest + tail);
  }

  /** A key and its value. */
  lemma MemberPrinted(key: string, value: Json, tail: string)
    requires Plain(key)
    ensures MemberTo(Member(key, value), tail) == "\"" + key + "\": " + DumpTo(value, tail)
  {
    var text := DumpTo(value, tail);
    PlainText(key, ['"'] + Spaced(':', text));
    QuotedKey(key, text);
  }

  lemma QuotedKey(key: string, text: string)
    ensures "\"" + key + "\": " + text == ['"'] + (key + (['"'] + Spaced(':', text)))
  {
    assert "\": " + text == ['"'] + Spaced(':', text);
  }

  lemma TagPrinted(tag: string, tail: string)
    requires Plain(tag)
    ensures DumpTo(Str(tag), tail) == "\"" + tag + "\"" + tail
  {
    PlainText(tag, ['"'] + tail);
    assert "\"" + tag + "\"" + tail == ['"'] + (tag + (['"'] + tail));
  }

  lemma ListPrinted(ns: seq<nat>, tail: string)
    ensures DumpTo(Arr(Numbers(ns)), tail) == "[" + NumbersText(ns) + "]" + tail
  {
    NumbersPrinted(ns, [']'] + tail);
    assert "[" + NumbersText(ns) + "]" + tail == ['['] + (NumbersText(ns) + ([']'] + tail));
  }

  lemma LastMember(m: Member, tail: string)
    ensures MembersTo([m], tail) == MemberTo(m, tail)
  {
  }

  lemma NextMember(m: Member, ms: seq<Member>, tail: string)
    requires ms != []
    ensures MembersTo([m] + ms, tail) == MemberTo(m, ", " + MembersTo(ms, tail))
  {
    assert ([m] + ms)[1..] == ms;
    assert Spaced(',', MembersTo(ms, tail)) == ", " + MembersTo(ms, tail);
  }

  /** A quoted key with its colon. */
  function Key(key: string): string { "\"" + key + "\": " }

  lemma KeyPrinted(key: string, value: Json, tail: string)
    requires Plain(key)
    ensures MemberTo(Member(key, value), tail) == Key(key) + DumpTo(value, tail)
  {
    MemberPrinted(key, value, tail);
  }

  /** A last member that is a list of numbers. */
  lemma ListLast(key: string, ns: seq<nat>, tail: string)
    requires Plain(key)
    ensures MembersTo([Member(key, Arr(Numbers(ns)))], tail) == Key(key) + ("[" + NumbersText(ns) + "]" + tail)
  {
    LastMember(Member(key, Arr(Numbers(ns))), tail);
    KeyPrinted(key, Arr(Numbers(ns)), tail);
    ListPrinted(ns, tail);
  }

  /** A member that is a list of numbers, with others behind it. */
  lemma ListNext(key: string, ns: seq<nat>, ms: seq<Member>, tail: string)
    requires Plain(key) && ms != []
    ensures MembersTo([Member(key, Arr(Numbers(ns)))] + ms, tail)
      == Key(key) + ("[" + NumbersText(ns) + "]" + (", " + MembersTo(ms, tail)))
  {
    NextMember(Member(key, Arr(Numbers(ns))), ms, tail);
    KeyPrinted(key, Arr(Numbers(ns)), ", " + MembersTo(ms, tail));
    ListPrinted(ns, ", " + MembersTo(ms, tail));
  }

  /** A member that is a string, with others behind it. */
  lemma TagNext(key: string, tag: string, ms: seq<Member>, tail: string)
    requires Plain(key) && Plain(tag) && ms != []
    ensures MembersTo([Member(key, Str(tag))] + ms, tail)
      == Key(key) + ("\"" + tag + "\"" + (", " + MembersTo(ms, tail)))
  {
    NextMember(Member(key, Str(tag)), ms, tail);
    KeyPrinted(key, Str(tag), ", " + MembersTo(ms, tail));
    TagPrinted(tag, ", " + MembersTo(ms, tail));
  }

  /** The members of a header entry are its type, its shape and its offsets, in this order. */
  lemma InfoMembers(tag: string, shape: seq<nat>, begin: nat, end: nat)
    ensures Info(tag, shape, begin, end) == Obj([Member("dtype", Str(tag))] + ([Member("shape", Arr(Numbers(shape)))] +
      [Member("data_offsets", Arr(Numbers([begin, end])))]))
  {
    assert Numbers([begin, end]) == [Num(begin), Num(end)];
  }

  /** The header entry of one weight, as text. */
  lemma InfoPrinted(tag: string, shape: seq<nat>, begin: nat, end: nat, tail: string)
    requires Plain(tag)
    ensures DumpTo(Info(tag, shape, begin, end), tail) ==
      "{" + (Key("dtype") + ("\"" + tag + "\"" + (", " + (Key("shape") + ("[" + NumbersText(shape) + "]" + (", " +
      (Key("data_offsets") + ("[" + NumbersText([begin, end]) + "]" + ("}" + tail)))))))))
  {
    var close := "}" + tail;
    var offsets := [Member("data_offsets", Arr(Numbers([begin, end])))];
    var dims := [Member("shape", Arr(Numbers(shape)))] + offsets;
    InfoMembers(tag, shape, begin, end);
    ListLast("data_offsets", [begin, end], close);
    ListNext("shape", shape, offsets, close);
    TagNext("dtype", tag, dims, close);
  }

  /** The tags of the safetensors format. */
  lemma TagsAre()
    ensures WriterTag(F32) == Some("F32") && WriterTag(F16) == Some("F16") && WriterTag(BF16) == Some("BF16")
    ensures WriterTag(F8) == Some("F8_E4M3") && WriterTag(I64) == Some("I64") && WriterTag(I32) == Some("I32")
    ensures WriterTag(I8) == Some("I8") && WriterTag(OtherType) == None
  {
  }
}
