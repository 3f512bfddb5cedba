/** JSON text: printing as the writer does (ASCII only, ", " and ": " separators) and parsing. */
module Json {
  import opened Wrappers

  type Positive = n: nat | n > 0 witness 1

  /** Text that starts as a number does; a float is kept as the text that denotes it. */
  type NumberText = s: string | Ascii(s) && s != "" && (IsDigit(s[0]) || s[0] == '-') witness "0.5"

  /** One of the literals. */
  type WordText = s: string | IsWord(s) witness "null"

  datatype Json =
    | Num(n: nat)
    | Neg(m: Positive)        // the integer -m
    | Real(text: NumberText)
    | Word(word: WordText)
    | Str(s: string)
    | Arr(items: seq<Json>)
    | Obj(members: seq<Member>)
  datatype Member = Member(key: string, value: Json)

  predicate Ascii(s: string) {
    forall i :: 0 <= i < |s| ==> ' ' <= s[i] <= '~'
  }

  predicate IsDigit(c: char) { '0' <= c <= '9' }

  /** The literal that starts with this character; the parser also knows the three that are no standard JSON. */
  function WordFor(c: char): string {
    if c == 'n' then "null"
    else if c == 't' then "true"
    else if c == 'f' then "false"
    else if c == 'N' then "NaN"
    else if c == 'I' then "Infinity"
    else if c == '-' then "-Infinity"
    else ""
  }

  predicate IsWord(s: string) {
    s != "" && WordFor(s[0]) == s
  }

  // ----- Printing -----

  function DigitChar(d: nat): char
    requires d < 10
  {
    ('0' as int + d) as char
  }

  function Digits(n: nat): string {
    if n < 10 then [DigitChar(n)] else Digits(n / 10) + [DigitChar(n % 10)]
  }

  function HexChar(d: nat): char
    requires d < 16
  {
    if d < 10 then DigitChar(d) else ('a' as int + d - 10) as char
  }

  function Hex4(n: nat): string
    requires n < 0x10000
  {
    [HexChar(n / 16 / 16 / 16), HexChar(n / 16 / 16 % 16), HexChar(n / 16 % 16), HexChar(n % 16)]
  }

  /** A backslash followed by `c`. */
  function Escaped(c: char): string { ['\\', c] }

  /** Section 7 of RFC 8259; characters outside printable ASCII become \u escapes, beyond the basic plane a
      surrogate pair. */
  function Escape(c: char): string {
    if c == '"' || c == '\\' then Escaped(c)
    else if c == '\n' then Escaped('n')
    else if c == '\r' then Escaped('r')
    else if c == '\t' then Escaped('t')
    else if c as int == 8 then Escaped('b')
    else if c as int == 12 then Escaped('f')
    else if ' ' <= c <= '~' then [c]
    else if c as int < 0x10000 then Escaped('u') + Hex4(c as int)
    else
      var rest := c as int - 0x10000;
      Escaped('u') + Hex4(0xD800 + rest / 0x400) + Escaped('u') + Hex4(0xDC00 + rest % 0x400)
  }

  // Printing in front of a given tail, so that texts are only ever built front to back.

  function EscapeTo(s: string, tail: string): string {
    if s == "" then tail else Escape(s[0]) + EscapeTo(s[1..], tail)
  }

  function QuoteTo(s: string, tail: string): string {
    ['"'] + EscapeTo(s, ['"'] + tail)
  }

  function DumpTo(v: Json, tail: string): string
    decreases v, 1
  {
    match v
    case Num(n) => Digits(n) + tail
    case Neg(m) => ['-'] + (Digits(m) + tail)
    case Real(text) => text + tail
    case Word(word) => word + tail
    case Str(s) => QuoteTo(s, tail)
    case Arr(items) => ['['] + ItemsTo(items, [']'] + tail)
    case Obj(members) => ['{'] + MembersTo(members, ['}'] + tail)
  }

  /** Separator character, space, and what follows. */
  function Spaced(c: char, tail: string): string { [c] + ([' '] + tail) }

  function ItemsTo(items: seq<Json>, tail: string): string
    decreases items, 0
  {
    if items == [] then tail
    else DumpTo(items[0], if |items| == 1 then tail else Spaced(',', ItemsTo(items[1..], tail)))
  }

  function MembersTo(members: seq<Member>, tail: string): string
    decreases members, 0
  {
    if members == [] then tail
    else MemberTo(members[0], if |members| == 1 then tail else Spaced(',', MembersTo(members[1..], tail)))
  }

  function MemberTo(m: Member, tail: string): string
    decreases m, 2
  {
    QuoteTo(m.key, Spaced(':', DumpTo(m.value, tail)))
  }

  function Dump(v: Json): string { DumpTo(v, "") }

  // ----- Parsing -----

  /** A parsed value and the text after it. */
  datatype Parsed<+T> = Parsed(value: T, rest: string)

  function ParseDigits(s: string, acc: nat): (p: Parsed<nat>)
    ensures |p.rest| <= |s|
  {
    if s == "" || !IsDigit(s[0]) then Parsed(acc, s)
    else ParseDigits(s[1..], acc * 10 + (s[0] as int - '0' as int))
  }

  function HexValue(c: char): Option<nat> {
    if IsDigit(c) then Some(c as int - '0' as int)
    else if 'a' <= c <= 'f' then Some(c as int - 'a' as int + 10)
    else if 'A' <= c <= 'F' then Some(c as int - 'A' as int + 10)
    else None
  }

  function ParseHex4(s: string): (r: Option<nat>)
    requires |s| >= 4
    ensures r.Some? ==> r.value < 0x10000
  {
    var a, b, c, d := HexValue(s[0]), HexValue(s[1]), HexValue(s[2]), HexValue(s[3]);
    if a.None? || b.None? || c.None? || d.None? then None
    else Some(a.value * 0x1000 + b.value * 0x100 + c.value * 16 + d.value)
  }

  /** The text after "\u". */
  function ParseUnicode(s: string): (p: Option<Parsed<char>>)
    ensures p.Some? ==> |p.value.rest| < |s|
  {
    if |s| < 4 || ParseHex4(s).None? then None
    else
      var high := ParseHex4(s).value;
      if !(0xD800 <= high < 0xE000) then Some(Parsed(high as char, s[4..]))
      else
        var after := s[4..];
        if high < 0xDC00 && |after| >= 6 && after[0] == '\\' && after[1] == 'u' && ParseHex4(after[2..]).Some? then
          var low := ParseHex4(after[2..]).value;
          if 0xDC00 <= low < 0xE000
          then Some(Parsed((0x10000 + (high - 0xD800) * 0x400 + (low - 0xDC00)) as char, after[2..][4..]))
          else None
        else None
  }

  /** The text after a backslash. */
  function ParseEscape(s: string): (p: Option<Parsed<char>>)
    ensures p.Some? ==> |p.value.rest| < |s|
  {
    if s == "" then None
    else if s[0] == '"' || s[0] == '\\' || s[0] == '/' then Some(Parsed(s[0], s[1..]))
    else if s[0] == 'n' then Some(Parsed('\n', s[1..]))
    else if s[0] == 'r' then Some(Parsed('\r', s[1..]))
    else if s[0] == 't' then Some(Parsed('\t', s[1..]))
    else if s[0] == 'b' then Some(Parsed(8 as char, s[1..]))
    else if s[0] == 'f' then Some(Parsed(12 as char, s[1..]))
    else if s[0] == 'u' then ParseUnicode(s[1..])
    else None
  }

  /** The text after an opening quote. */
  function ParseChars(s: string): (p: Option<Parsed<string>>)
    ensures p.Some? ==> |p.value.rest| < |s|
    decreases |s|
  {
    if s == "" then None
    else if s[0] == '"' then Some(Parsed("", s[1..]))
    else if s[0] == '\\' then
      var c := ParseEscape(s[1..]);
      if c.None? then None else Prepend(c.value.value, ParseChars(c.value.rest))
    else if s[0] < ' ' then None
    else Prepend(s[0], ParseChars(s[1..]))
  }

  function Prepend(c: char, p: Option<Parsed<string>>): Option<Parsed<string>> {
    if p.None? then None else Some(Parsed([c] + p.value.value, p.value.rest))
  }

  function SkipSpace(s: string): (r: string)
    ensures |r| <= |s|
  {
    if s != "" && (s[0] == ' ' || s[0] == '\n' || s[0] == '\t' || s[0] == '\r') then SkipSpace(s[1..]) else s
  }

  /** Dictionary assignment: a known key keeps its place and takes the new value. */
  function SetItem(members: seq<Member>, m: Member): seq<Member> {
    if members == [] then [m]
    else if members[0].key == m.key then [m] + members[1..]
    else [members[0]] + SetItem(members[1..], m)
  }

  function SetItems(members: seq<Member>, more: seq<Member>): seq<Member>
    decreases |more|
  {
    if more == [] then members else SetItems(SetItem(members, more[0]), more[1..])
  }

  /** How many digits the text starts with. */
  function DigitRun(s: string): (n: nat)
    ensures n <= |s| && forall i :: 0 <= i < n ==> IsDigit(s[i])
  {
    if s == "" || !IsDigit(s[0]) then 0 else 1 + DigitRun(s[1..])
  }

  predicate StartsWith(s: string, c: char) {
    s != "" && s[0] == c
  }

  /** Section 6 of RFC 8259: the length of the integer the text starts with, or 0. */
  function IntLength(s: string): (n: nat)
    ensures n <= |s| && (n > 0 ==> IsDigit(s[0]) || s[0] == '-')
  {
    var sign := if StartsWith(s, '-') then 1 else 0;
    var run := DigitRun(s[sign..]);
    if run == 0 then 0 else if s[sign] == '0' then sign + 1 else sign + run
  }

  function FracLength(s: string): (n: nat)
    ensures n <= |s|
  {
    if !StartsWith(s, '.') then 0
    else
      var run := DigitRun(s[1..]);
      if run == 0 then 0 else 1 + run
  }

  function ExpLength(s: string): (n: nat)
    ensures n <= |s|
  {
    if !StartsWith(s, 'e') && !StartsWith(s, 'E') then 0
    else
      var sign := if StartsWith(s[1..], '+') || StartsWith(s[1..], '-') then 1 else 0;
      var run := DigitRun(s[1 + sign..]);
      if run == 0 then 0 else 1 + sign + run
  }

  /** A fraction and an exponent, each of which may be missing. */
  function TailLength(s: string): (n: nat)
    ensures n <= |s|
  {
    var f := FracLength(s);
    f + ExpLength(s[f..])
  }

  function NumberLength(s: string): (n: nat)
    ensures IntLength(s) <= n <= |s|
  {
    var i := IntLength(s);
    if i == 0 then 0 else i + TailLength(s[i..])
  }

  lemma TailAscii(s: string)
    ensures Ascii(s[..TailLength(s)])
  {
    var f := FracLength(s);
    FracAscii(s);
    ExpAscii(s[f..]);
    assert s[..TailLength(s)] == s[..f] + s[f..][..ExpLength(s[f..])];
  }

  lemma NumberAscii(s: string)
    ensures Ascii(s[..NumberLength(s)])
  {
    var i := IntLength(s);
    if i > 0 {
      IntAscii(s);
      TailAscii(s[i..]);
      assert s[..NumberLength(s)] == s[..i] + s[i..][..TailLength(s[i..])];
    }
  }

  lemma IntAscii(s: string)
    ensures Ascii(s[..IntLength(s)])
  {
    var sign := if StartsWith(s, '-') then 1 else 0;
    assert forall i :: sign <= i < IntLength(s) ==> s[i] == s[sign..][i - sign];
  }

  lemma FracAscii(s: string)
    ensures Ascii(s[..FracLength(s)])
  {
    assert forall i :: 1 <= i < FracLength(s) ==> s[i] == s[1..][i - 1];
  }

  lemma ExpAscii(s: string)
    ensures Ascii(s[..ExpLength(s)])
  {
    if ExpLength(s) > 0 {
      var sign := if StartsWith(s[1..], '+') || StartsWith(s[1..], '-') then 1 else 0;
      assert forall i :: 1 + sign <= i < ExpLength(s) ==> s[i] == s[1 + sign..][i - 1 - sign];
    }
  }

  /** An integer, or with a fraction or an exponent the text of a float. */
  function ParseNumber(s: string): (p: Option<Parsed<Json>>)
    ensures p.Some? ==> |p.value.rest| < |s|
  {
    var n := NumberLength(s);
    if n == 0 then None
    else if n > IntLength(s) then
      NumberAscii(s);
      Some(Parsed(Real(s[..n]), s[n..]))
    else if s[0] != '-' then Some(Parsed(Num(ParseDigits(s[..n], 0).value), s[n..]))
    else
      var m := ParseDigits(s[1..n], 0).value;
      Some(Parsed(if m == 0 then Num(0) else Neg(m), s[n..]))
  }

  /** The literal the text starts with, or nothing. */
  function WordAt(s: string): string {
    if s != "" && WordFor(s[0]) <= s then WordFor(s[0]) else ""
  }

  function ParseValue(s: string): (p: Option<Parsed<Json>>)
    ensures p.Some? ==> |p.value.rest| < |s|
    decreases |s|, 1
  {
    if s == "" then None
    else if s[0] == '"' then
      var chars := ParseChars(s[1..]);
      if chars.None? then None else Some(Parsed(Str(chars.value.value), chars.value.rest))
    else if s[0] == '[' then
      var t := SkipSpace(s[1..]);
      if t != "" && t[0] == ']' then Some(Parsed(Arr([]), t[1..]))
      else
        var items := ParseItems(t);
        if items.None? then None else Some(Parsed(Arr(items.value.value), items.value.rest))
    else if s[0] == '{' then
      var t := SkipSpace(s[1..]);
      if t != "" && t[0] == '}' then Some(Parsed(Obj([]), t[1..]))
      else
        var members := ParseMembers(t);
        if members.None? then None else Some(Parsed(Obj(SetItems([], members.value.value)), members.value.rest))
    else if WordAt(s) != "" then Some(Parsed(Word(WordAt(s)), s[|WordAt(s)|..]))
    else ParseNumber(s)
  }

  /** Values separated by commas, up to and including the closing bracket. */
  function ParseItems(s: string): (p: Option<Parsed<seq<Json>>>)
    ensures p.Some? ==> |p.value.rest| < |s|
    decreases |s|, 2
  {
    var v := ParseValue(s);
    if v.None? then None
    else
      var t := SkipSpace(v.value.rest);
      if t == "" then None
      else if t[0] == ']' then Some(Parsed([v.value.value], t[1..]))
      else if t[0] != ',' then None
      else
        var more := ParseItems(SkipSpace(t[1..]));
        if more.None? then None else Some(Parsed([v.value.value] + more.value.value, more.value.rest))
  }

  /** Key-value pairs separated by commas, up to and including the closing brace. */
  function ParseMembers(s: string): (p: Option<Parsed<seq<Member>>>)
    ensures p.Some? ==> |p.value.rest| < |s|
    decreases |s|, 2
  {
    if s == "" || s[0] != '"' then None
    else
      var key := ParseChars(s[1..]);
      if key.None? then None
      else
        var colon := SkipSpace(key.value.rest);
        if colon == "" || colon[0] != ':' then None
        else
          var v := ParseValue(SkipSpace(colon[1..]));
          if v.None? then None
          else
            var m := Member(key.value.value, v.value.value);
            var t := SkipSpace(v.value.rest);
            if t == "" then None
            else if t[0] == '}' then Some(Parsed([m], t[1..]))
            else if t[0] != ',' then None
            else
              var more := ParseMembers(SkipSpace(t[1..]));
              if more.None? then None else Some(Parsed([m] + more.value.value, more.value.rest))
  }

  /** The whole text is one value. */
  function Parse(s: string): Option<Json> {
    var p := ParseValue(SkipSpace(s));
    if p.Some? && SkipSpace(p.value.rest) == "" then Some(p.value.value) else None
  }

  // ----- Printing then parsing -----

  predicate DistinctKeys(members: seq<Member>) {
    forall i, j :: 0 <= i < j < |members| ==> members[i].key != members[j].key
  }

  /** The text is a number with a fraction or an exponent. */
  predicate RealText(s: string) {
    0 < IntLength(s) < NumberLength(s) == |s|
  }

  /** No object repeats a key, as no dictionary can, and floats are printed as JSON has them. */
  predicate WellFormed(v: Json)
    decreases v, 1
  {
    match v
    case Num(_) => true
    case Neg(_) => true
    case Real(text) => RealText(text)
    case Word(_) => true
    case Str(_) => true
    case Arr(items) => forall i :: 0 <= i < |items| ==> WellFormed(items[i])
    case Obj(members) => DistinctKeys(members) && forall i :: 0 <= i < |members| ==> WellFormed(members[i].value)
  }

  lemma HexRoundTrip(d: nat)
    requires d < 16
    ensures HexValue(HexChar(d)) == Some(d)
  {
  }

  lemma HexDigitsOf(n: nat)
    requires n < 0x10000
    ensures n / 16 / 16 / 16 < 16
    ensures n == n / 16 / 16 / 16 * 0x1000 + n / 16 / 16 % 16 * 0x100 + n / 16 % 16 * 16 + n % 16
  {
    var a := n / 16;
    var b := a / 16;
    assert n == 16 * a + n % 16 && a == 16 * b + a % 16 && b == 16 * (b / 16) + b % 16;
  }

  lemma Hex4RoundTrip(n: nat, t: string)
    requires n < 0x10000
    ensures |Hex4(n) + t| >= 4 && ParseHex4(Hex4(n) + t) == Some(n) && (Hex4(n) + t)[4..] == t
  {
    HexDigitsOf(n);
    HexRoundTrip(n / 16 / 16 / 16);
    HexRoundTrip(n / 16 / 16 % 16);
    HexRoundTrip(n / 16 % 16);
    HexRoundTrip(n % 16);
  }

  /** A surrogate pair, already scanned, denotes one character. */
  lemma PairParses(s: string, units: string, high: nat, low: nat, t: string)
    requires |s| >= 4 && |units| >= 4 && s[4..] == Escaped('u') + units && units[4..] == t
    requires ParseHex4(s) == Some(high) && ParseHex4(units) == Some(low)
    requires 0xD800 <= high < 0xDC00 <= low < 0xE000
    ensures ParseUnicode(s) == Some(Parsed((0x10000 + (high - 0xD800) * 0x400 + (low - 0xDC00)) as char, t))
  {
    assert s[4..][2..] == units;
  }

  function HighHalf(c: char): nat
    requires c as int >= 0x10000
  {
    0xD800 + (c as int - 0x10000) / 0x400
  }

  function LowHalf(c: char): nat
    requires c as int >= 0x10000
  {
    0xDC00 + (c as int - 0x10000) % 0x400
  }

  lemma HalvesJoin(c: char)
    requires c as int >= 0x10000
    ensures 0xD800 <= HighHalf(c) < 0xDC00 <= LowHalf(c) < 0xE000
    ensures 0x10000 + (HighHalf(c) - 0xD800) * 0x400 + (LowHalf(c) - 0xDC00) == c as int
    ensures Escape(c) == Escaped('u') + Hex4(HighHalf(c)) + Escaped('u') + Hex4(LowHalf(c))
  {
  }

  lemma UnitsParse(high: nat, low: nat, t: string)
    requires 0xD800 <= high < 0xDC00 <= low < 0xE000
    ensures ParseUnicode(Hex4(high) + (Escaped('u') + (Hex4(low) + t)))
            == Some(Parsed((0x10000 + (high - 0xD800) * 0x400 + (low - 0xDC00)) as char, t))
  {
    var units := Hex4(low) + t;
    var after := Escaped('u') + units;
    Hex4RoundTrip(high, after);
    Hex4RoundTrip(low, t);
    PairParses(Hex4(high) + after, units, high, low, t);
  }

  lemma EscapedPairRoundTrip(c: char, t: string)
    requires c as int >= 0x10000
    ensures ParseChars(Escape(c) + t) == Prepend(c, ParseChars(t))
  {
    HalvesJoin(c);
    UnitsParse(HighHalf(c), LowHalf(c), t);
    Reassociate(Escaped('u'), Hex4(HighHalf(c)), Escaped('u'), Hex4(LowHalf(c)), t);
    UnicodeParses(Escape(c) + t, Hex4(HighHalf(c)) + (Escaped('u') + (Hex4(LowHalf(c)) + t)), c, t);
  }

  lemma Reassociate(a: string, b: string, c: string, d: string, t: string)
    ensures a + b + c + d + t == a + (b + (c + (d + t)))
  {
  }

  lemma UnicodeParses(s: string, text: string, c: char, t: string)
    requires s == Escaped('u') + text && ParseUnicode(text) == Some(Parsed(c, t))
    ensures ParseChars(s) == Prepend(c, ParseChars(t))
  {
    assert s[1..] == ['u'] + text && s[1..][1..] == text;
  }

  lemma EscapedUnitRoundTrip(c: char, t: string)
    requires c as int < 0x10000 && Escape(c) == Escaped('u') + Hex4(c as int)
    ensures ParseChars(Escape(c) + t) == Prepend(c, ParseChars(t))
  {
    var text := Hex4(c as int) + t;
    Hex4RoundTrip(c as int, t);
    assert ParseUnicode(text) == Some(Parsed(c, t));
    assert Escape(c) + t == Escaped('u') + text;
    UnicodeParses(Escape(c) + t, text, c, t);
  }

  lemma EscapeRoundTrip(c: char, t: string)
    ensures ParseChars(Escape(c) + t) == Prepend(c, ParseChars(t))
  {
    var s := Escape(c) + t;
    if c as int >= 0x10000 {
      EscapedPairRoundTrip(c, t);
    } else if |Escape(c)| == 6 {
      EscapedUnitRoundTrip(c, t);
    } else if |Escape(c)| == 2 {
      assert s[1..] == [Escape(c)[1]] + t && s[1..][1..] == t;
    } else {
      assert s[1..] == t;
    }
  }

  lemma {:induction false} CharsRoundTrip(s: string, t: string)
    ensures ParseChars(EscapeTo(s, ['"'] + t)) == Some(Parsed(s, t))
  {
    if s != "" {
      CharsRoundTrip(s[1..], t);
      EscapeRoundTrip(s[0], EscapeTo(s[1..], ['"'] + t));
      assert [s[0]] + s[1..] == s;
    }
  }

  predicate NumberEnds(t: string) {
    t == "" || !(IsDigit(t[0]) || t[0] == '.' || t[0] == 'e' || t[0] == 'E')
  }

  lemma {:induction false} DigitsRoundTrip(n: nat, t: string)
    ensures ParseDigits(Digits(n) + t, 0) == ParseDigits(t, n)
    ensures IsDigit(Digits(n)[0]) && (Digits(n)[0] == '0' <==> n == 0)
  {
    if n < 10 {
      assert (Digits(n) + t)[1..] == t;
    } else {
      var d := [DigitChar(n % 10)];
      DigitsRoundTrip(n / 10, d + t);
      assert Digits(n) + t == Digits(n / 10) + (d + t);
      assert (d + t)[1..] == t;
    }
  }

  lemma {:induction false} DigitRunAppend(s: string, t: string)
    requires t == "" || !IsDigit(t[0])
    ensures DigitRun(s + t) == DigitRun(s)
  {
    if s == "" {
      assert s + t == t;
    } else {
      assert (s + t)[1..] == s[1..] + t;
      DigitRunAppend(s[1..], t);
    }
  }

  lemma {:induction false} DigitsRun(n: nat)
    ensures DigitRun(Digits(n)) == |Digits(n)|
  {
    AllDigits(n);
    RunOfDigits(Digits(n));
  }

  lemma {:induction false} AllDigits(n: nat)
    ensures |Digits(n)| > 0 && forall i :: 0 <= i < |Digits(n)| ==> IsDigit(Digits(n)[i])
    ensures n == 0 <==> Digits(n) == "0"
    ensures n > 0 ==> Digits(n)[0] != '0'
  {
    if n >= 10 { AllDigits(n / 10); }
  }

  lemma {:induction false} RunOfDigits(s: string)
    requires forall i :: 0 <= i < |s| ==> IsDigit(s[i])
    ensures DigitRun(s) == |s|
  {
    if s != "" { RunOfDigits(s[1..]); }
  }

  /** What follows a whole integer text adds nothing to it. */
  lemma {:induction false} IntLengthOf(s: string, t: string)
    requires NumberEnds(t) && IntLength(s) > 0
    ensures IntLength(s + t) == IntLength(s)
  {
    var sign := if StartsWith(s, '-') then 1 else 0;
    DigitRunAppend(s[sign..], t);
    assert (s + t)[sign..] == s[sign..] + t;
  }

  lemma {:induction false} NoTail(t: string)
    requires NumberEnds(t)
    ensures TailLength(t) == 0
  {
    assert t[0..] == t;
  }

  lemma {:induction false} FracLengthOf(s: string, t: string)
    requires NumberEnds(t)
    ensures FracLength(s + t) == FracLength(s)
  {
    if s == "" {
      assert s + t == t;
    } else {
      assert (s + t)[1..] == s[1..] + t;
      DigitRunAppend(s[1..], t);
    }
  }

  lemma {:induction false} ExpLengthOf(s: string, t: string)
    requires NumberEnds(t) && ExpLength(s) == |s|
    ensures ExpLength(s + t) == |s|
  {
    if s == "" {
      assert s + t == t;
    } else {
      assert (s + t)[1..] == s[1..] + t;
      var sign := if StartsWith(s[1..], '+') || StartsWith(s[1..], '-') then 1 else 0;
      assert (s + t)[1 + sign..] == s[1 + sign..] + t;
      DigitRunAppend(s[1 + sign..], t);
    }
  }

  /** An integer text of this length, and nothing after it that belongs to a number. */
  lemma {:induction false} WholeInteger(s: string, t: string)
    requires NumberEnds(t) && 0 < IntLength(s) == |s|
    ensures NumberLength(s + t) == |s| == IntLength(s + t)
  {
    IntLengthOf(s, t);
    NoTail(t);
    assert (s + t)[|s|..] == t;
  }

  lemma {:induction false} NumberRoundTrip(n: nat, t: string)
    requires NumberEnds(t)
    ensures ParseValue(Digits(n) + t) == Some(Parsed(Num(n), t))
  {
    var d := Digits(n);
    DigitsRun(n);
    AllDigits(n);
    WholeInteger(d, t);
    DigitsRoundTrip(n, "");
    assert d + "" == d && (d + t)[..|d|] == d && (d + t)[|d|..] == t;
  }

  lemma {:induction false} NegativeRoundTrip(m: Positive, t: string)
    requires NumberEnds(t)
    ensures ParseValue(['-'] + (Digits(m) + t)) == Some(Parsed(Neg(m), t))
  {
    var s := ['-'] + Digits(m);
    AllDigits(m);
    NegativeNumber(m, s, t);
    assert ['-'] + (Digits(m) + t) == s + t;
    NotAWord(s + t);
    NumberIsParsed(s + t);
  }

  /** What starts with a digit or a minus sign and is no literal is parsed as a number. */
  lemma NumberIsParsed(s: string)
    requires s != "" && (IsDigit(s[0]) || s[0] == '-') && WordAt(s) == ""
    ensures ParseValue(s) == ParseNumber(s)
  {
  }

  lemma {:induction false} NegativeNumber(m: Positive, s: string, t: string)
    requires NumberEnds(t) && s == ['-'] + Digits(m)
    ensures ParseNumber(s + t) == Some(Parsed(Neg(m), t))
  {
    DigitsRun(m);
    AllDigits(m);
    assert s[1..] == Digits(m);
    WholeInteger(s, t);
    DigitsRoundTrip(m, "");
    assert Digits(m) + "" == Digits(m) && (s + t)[1..|s|] == Digits(m) && (s + t)[|s|..] == t;
  }

  lemma NotAWord(s: string)
    requires |s| > 1 && s[0] == '-' && IsDigit(s[1])
    ensures WordAt(s) == ""
  {
    assert "-Infinity"[1] == 'I';
  }

  lemma {:induction false} RealLength(text: string, t: string)
    requires NumberEnds(t) && RealText(text)
    ensures IntLength(text + t) == IntLength(text) && NumberLength(text + t) == |text|
  {
    var i := IntLength(text);
    IntLengthOf(text, t);
    TailLengthOf(text[i..], t);
    assert (text + t)[i..] == text[i..] + t;
  }

  lemma {:induction false} TailLengthOf(s: string, t: string)
    requires NumberEnds(t) && TailLength(s) == |s|
    ensures TailLength(s + t) == |s|
  {
    var f := FracLength(s);
    FracLengthOf(s, t);
    ExpLengthOf(s[f..], t);
    assert (s + t)[f..] == s[f..] + t;
  }

  lemma {:induction false} IntegerStarts(text: string)
    requires IntLength(text) > 0
    ensures IsDigit(text[0]) || (text[0] == '-' && |text| > 1 && IsDigit(text[1]))
  {
    if text[0] == '-' { assert text[1] == text[1..][0]; }
  }

  lemma {:induction false} NumberIsNoWord(s: string)
    requires IntLength(s) > 0
    ensures WordAt(s) == "" && ParseValue(s) == ParseNumber(s)
  {
    IntegerStarts(s);
    if s[0] == '-' { NotAWord(s); }
  }

  lemma {:induction false} RealRoundTrip(text: NumberText, t: string)
    requires NumberEnds(t) && RealText(text)
    ensures ParseValue(text + t) == Some(Parsed(Real(text), t))
  {
    RealLength(text, t);
    NumberIsNoWord(text + t);
    assert (text + t)[..|text|] == text && (text + t)[|text|..] == t;
  }

  lemma WordRoundTrip(word: WordText, t: string)
    ensures ParseValue(word + t) == Some(Parsed(Word(word), t))
  {
    var s := word + t;
    assert s[..|word|] == word && s[|word|..] == t;
    assert s[0] == word[0] && WordFor(s[0]) <= s;
  }

  lemma {:induction false} SetItemsDistinct(members: seq<Member>, more: seq<Member>)
    requires DistinctKeys(members + more)
    ensures SetItems(members, more) == members + more
    decreases |more|
  {
    if more == [] {
      assert members + more == members;
    } else {
      var all := members + more;
      assert members + [more[0]] == all[..|members| + 1];
      assert members + [more[0]] + more[1..] == all;
      SetItemNew(members, more[0]);
      SetItemsDistinct(members + [more[0]], more[1..]);
    }
  }

  lemma {:induction false} SetItemNew(members: seq<Member>, m: Member)
    requires DistinctKeys(members + [m])
    ensures SetItem(members, m) == members + [m]
  {
    if members != [] {
      assert (members + [m])[0].key != (members + [m])[|members|].key;
      assert (members + [m])[1..] == members[1..] + [m];
      assert DistinctKeys(members[1..] + [m]);
      SetItemNew(members[1..], m);
    }
  }

  // What one parsing step does, on texts of any origin.

  predicate NoSpace(s: string) {
    s == "" || !(s[0] == ' ' || s[0] == '\n' || s[0] == '\t' || s[0] == '\r')
  }

  lemma ArrayParses(inner: string, items: seq<Json>, t: string)
    requires NoSpace(inner) && inner != "" && inner[0] != ']' && ParseItems(inner) == Some(Parsed(items, t))
    ensures ParseValue(['['] + inner) == Some(Parsed(Arr(items), t))
  {
    assert (['['] + inner)[1..] == inner;
  }

  lemma ObjectParses(inner: string, members: seq<Member>, t: string)
    requires inner != "" && inner[0] == '"' && SetItems([], members) == members
    requires ParseMembers(inner) == Some(Parsed(members, t))
    ensures ParseValue(['{'] + inner) == Some(Parsed(Obj(members), t))
  {
    assert (['{'] + inner)[1..] == inner;
  }

  lemma EmptyParses(t: string)
    ensures ParseValue(['['] + ([']'] + t)) == Some(Parsed(Arr([]), t))
    ensures ParseValue(['{'] + (['}'] + t)) == Some(Parsed(Obj([]), t))
  {
    var brackets, braces := [']'] + t, ['}'] + t;
    assert (['['] + brackets)[1..] == brackets && brackets[1..] == t;
    assert (['{'] + braces)[1..] == braces && braces[1..] == t;
  }

  lemma SpacedSkips(c: char, rest: string)
    requires NoSpace(rest) && c != ' ' && c != '\n' && c != '\t' && c != '\r'
    ensures SkipSpace(Spaced(c, rest)) == Spaced(c, rest) && Spaced(c, rest)[0] == c
    ensures SkipSpace(Spaced(c, rest)[1..]) == rest
  {
    var space := [' '] + rest;
    assert Spaced(c, rest)[1..] == space && space[1..] == rest;
  }

  lemma LastItemParses(s: string, v: Json, t: string)
    requires ParseValue(s) == Some(Parsed(v, [']'] + t))
    ensures ParseItems(s) == Some(Parsed([v], t))
  {
    assert ([']'] + t)[1..] == t;
  }

  lemma NextItemParses(s: string, v: Json, rest: string, items: seq<Json>, t: string)
    requires ParseValue(s) == Some(Parsed(v, Spaced(',', rest))) && NoSpace(rest)
    requires ParseItems(rest) == Some(Parsed(items, t))
    ensures ParseItems(s) == Some(Parsed([v] + items, t))
  {
    SpacedSkips(',', rest);
  }

  /** `s` begins with a key, a colon, and text that parses to the value. */
  predicate BeginsMember(s: string, m: Member, rest: string) {
    && s != "" && s[0] == '"'
    && var key := ParseChars(s[1..]);
       && key.Some? && key.value.value == m.key
       && var colon := SkipSpace(key.value.rest);
          && colon != "" && colon[0] == ':'
          && ParseValue(SkipSpace(colon[1..])) == Some(Parsed(m.value, rest))
  }

  lemma LastMemberParses(s: string, m: Member, t: string)
    requires BeginsMember(s, m, ['}'] + t)
    ensures ParseMembers(s) == Some(Parsed([m], t))
  {
    assert (['}'] + t)[1..] == t;
  }

  lemma NextMemberParses(s: string, m: Member, rest: string, members: seq<Member>, t: string)
    requires BeginsMember(s, m, Spaced(',', rest)) && NoSpace(rest)
    requires ParseMembers(rest) == Some(Parsed(members, t))
    ensures ParseMembers(s) == Some(Parsed([m] + members, t))
  {
    SpacedSkips(',', rest);
  }

  /** A value printed in front of text that cannot continue a number parses back to itself. */
  lemma {:induction false} ValueRoundTrip(v: Json, t: string)
    requires WellFormed(v) && NumberEnds(t)
    ensures ParseValue(DumpTo(v, t)) == Some(Parsed(v, t))
    decreases v, 1
  {
    match v
    case Num(n) => NumberRoundTrip(n, t);
    case Neg(m) => NegativeRoundTrip(m, t);
    case Real(text) => RealRoundTrip(text, t);
    case Word(word) => WordRoundTrip(word, t);
    case Str(chars) =>
      CharsRoundTrip(chars, t);
      assert DumpTo(v, t)[1..] == EscapeTo(chars, ['"'] + t);
    case Arr(items) =>
      if items == [] {
        EmptyParses(t);
      } else {
        ItemsRoundTrip(items, t);
        ItemsUnfold(items, [']'] + t);
        ArrayParses(ItemsTo(items, [']'] + t), items, t);
      }
    case Obj(members) =>
      if members == [] {
        EmptyParses(t);
      } else {
        MembersRoundTrip(members, t);
        assert [] + members == members;
        SetItemsDistinct([], members);
        ObjectParses(MembersTo(members, ['}'] + t), members, t);
      }
  }

  lemma ValueStarts(v: Json, t: string)
    ensures DumpTo(v, t) != ""
    ensures NoSpace(DumpTo(v, t)) && DumpTo(v, t)[0] != ']'
  {
    if v.Num? { AllDigits(v.n); }
  }

  lemma ItemsUnfold(items: seq<Json>, tail: string)
    requires |items| >= 1
    ensures |items| == 1 ==> ItemsTo(items, tail) == DumpTo(items[0], tail)
    ensures |items| > 1 ==> ItemsTo(items, tail) == DumpTo(items[0], Spaced(',', ItemsTo(items[1..], tail)))
    ensures ItemsTo(items, tail) != "" && NoSpace(ItemsTo(items, tail)) && ItemsTo(items, tail)[0] != ']'
  {
    ValueStarts(items[0], if |items| == 1 then tail else Spaced(',', ItemsTo(items[1..], tail)));
  }

  lemma {:induction false} ItemsRoundTrip(items: seq<Json>, t: string)
    requires items != [] && forall i :: 0 <= i < |items| ==> WellFormed(items[i])
    ensures ParseItems(ItemsTo(items, [']'] + t)) == Some(Parsed(items, t))
    decreases items, 0
  {
    var tail := [']'] + t;
    var s := ItemsTo(items, tail);
    ItemsUnfold(items, tail);
    if |items| == 1 {
      ValueRoundTrip(items[0], tail);
      LastItemParses(s, items[0], t);
      assert [items[0]] == items;
    } else {
      var others := items[1..];
      var rest := ItemsTo(others, tail);
      ValueRoundTrip(items[0], Spaced(',', rest));
      ItemsRoundTrip(others, t);
      ItemsUnfold(others, tail);
      NextItemParses(s, items[0], rest, others, t);
      assert [items[0]] + others == items;
    }
  }

  lemma {:induction false} MembersRoundTrip(members: seq<Member>, t: string)
    requires members != [] && forall i :: 0 <= i < |members| ==> WellFormed(members[i].value)
    ensures ParseMembers(MembersTo(members, ['}'] + t)) == Some(Parsed(members, t))
    decreases members, 0
  {
    var s := MembersTo(members, ['}'] + t);
    if |members| == 1 {
      MemberRoundTrip(members[0], ['}'] + t);
      LastMemberParses(s, members[0], t);
      assert [members[0]] == members;
    } else {
      var rest := MembersTo(members[1..], ['}'] + t);
      MemberRoundTrip(members[0], Spaced(',', rest));
      MembersRoundTrip(members[1..], t);
      NextMemberParses(s, members[0], rest, members[1..], t);
      assert [members[0]] + members[1..] == members;
    }
  }

  lemma {:induction false} MemberRoundTrip(m: Member, rest: string)
    requires WellFormed(m.value) && NumberEnds(rest)
    ensures BeginsMember(MemberTo(m, rest), m, rest)
    decreases m, 2
  {
    var value := DumpTo(m.value, rest);
    CharsRoundTrip(m.key, Spaced(':', value));
    assert MemberTo(m, rest)[1..] == EscapeTo(m.key, ['"'] + Spaced(':', value));
    ValueRoundTrip(m.value, rest);
    ValueStarts(m.value, rest);
    SpacedSkips(':', value);
  }

  /** Parsing what was printed gives the value back. */
  lemma DumpParses(v: Json)
    requires WellFormed(v)
    ensures Parse(Dump(v)) == Some(v)
  {
    ValueStarts(v, "");
    ValueRoundTrip(v, "");
  }

  // ----- Printed text is ASCII -----

  lemma Hex4Ascii(n: nat)
    requires n < 0x10000
    ensures Ascii(Hex4(n))
  {
  }

  lemma AsciiAppend(s: string, t: string)
    requires Ascii(s) && Ascii(t)
    ensures Ascii(s + t)
  {
  }

  lemma UnitAscii(n: nat)
    requires n < 0x10000
    ensures Ascii(Escaped('u') + Hex4(n))
  {
    Hex4Ascii(n);
    AsciiAppend(Escaped('u'), Hex4(n));
  }

  lemma PairAscii(c: char)
    requires c as int >= 0x10000
    ensures Ascii(Escape(c))
  {
    HalvesJoin(c);
    var high, low := Escaped('u') + Hex4(HighHalf(c)), Escaped('u') + Hex4(LowHalf(c));
    UnitAscii(HighHalf(c));
    UnitAscii(LowHalf(c));
    AsciiAppend(high, low);
    assert Escape(c) == high + low;
  }

  lemma EscapeAscii(c: char)
    ensures Ascii(Escape(c))
  {
    if c as int >= 0x10000 {
      PairAscii(c);
    } else if |Escape(c)| == 6 {
      UnitAscii(c as int);
      assert Escape(c) == Escaped('u') + Hex4(c as int);
    }
  }

  lemma {:induction false} EscapeToAscii(s: string, t: string)
    requires Ascii(t)
    ensures Ascii(EscapeTo(s, t))
  {
    if s != "" {
      EscapeAscii(s[0]);
      EscapeToAscii(s[1..], t);
    }
  }

  lemma {:induction false} DigitsAscii(n: nat)
    ensures Ascii(Digits(n))
  {
    if n >= 10 { DigitsAscii(n / 10); }
  }

  lemma WordAscii(word: WordText)
    ensures Ascii(word)
  {
  }

  lemma {:induction false} DumpToAscii(v: Json, t: string)
    requires Ascii(t)
    ensures Ascii(DumpTo(v, t))
    decreases v, 1
  {
    match v
    case Num(n) => DigitsAscii(n); AsciiAppend(Digits(n), t);
    case Neg(m) => DigitsAscii(m); AsciiAppend(Digits(m), t);
    case Real(text) => AsciiAppend(text, t);
    case Word(word) => WordAscii(word); AsciiAppend(word, t);
    case Str(s) => EscapeToAscii(s, ['"'] + t);
    case Arr(items) => ItemsAscii(items, [']'] + t);
    case Obj(members) => MembersAscii(members, ['}'] + t);
  }

  lemma {:induction false} ItemsAscii(items: seq<Json>, t: string)
    requires Ascii(t)
    ensures Ascii(ItemsTo(items, t))
    decreases items, 0
  {
    if |items| == 1 {
      DumpToAscii(items[0], t);
    } else if items != [] {
      ItemsAscii(items[1..], t);
      DumpToAscii(items[0], Spaced(',', ItemsTo(items[1..], t)));
    }
  }

  lemma {:induction false} MembersAscii(members: seq<Member>, t: string)
    requires Ascii(t)
    ensures Ascii(MembersTo(members, t))
    decreases members, 0
  {
    if members != [] {
      if |members| > 1 { MembersAscii(members[1..], t); }
      var tail := if |members| == 1 then t else Spaced(',', MembersTo(members[1..], t));
      DumpToAscii(members[0].value, tail);
      EscapeToAscii(members[0].key, ['"'] + Spaced(':', DumpTo(members[0].value, tail)));
    }
  }

  /** The printed text holds only printable ASCII, so it has as many bytes as characters. */
  lemma DumpAscii(v: Json)
    ensures Ascii(Dump(v))
  {
    DumpToAscii(v, "");
  }
}
