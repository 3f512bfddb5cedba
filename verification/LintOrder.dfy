/** The order of strings, as the lint ratchet sorts by it. */
module LintOrder {
  /** `a` comes before `b`, comparing code points from the left. */
  predicate Below(a: string, b: string) {
    b != [] && (a == [] || a[0] < b[0] || (a[0] == b[0] && Below(a[1..], b[1..])))
  }

  lemma {:induction false} NotBelowItself(a: string)
    ensures !Below(a, a)
  {
    if a != [] {
      NotBelowItself(a[1..]);
    }
  }

  lemma {:induction false} BelowIsTransitive(a: string, b: string, c: string)
    requires Below(a, b) && Below(b, c)
    ensures Below(a, c)
  {
    if a != [] && a[0] == b[0] == c[0] {
      BelowIsTransitive(a[1..], b[1..], c[1..]);
    }
  }

  lemma {:induction false} BelowIsTotal(a: string, b: string)
    ensures Below(a, b) || a == b || Below(b, a)
  {
    if a != [] && b != [] && a[0] == b[0] {
      BelowIsTotal(a[1..], b[1..]);
      assert a == [a[0]] + a[1..] && b == [b[0]] + b[1..];
    }
  }

  lemma NotBothBelow(a: string, b: string)
    requires Below(a, b)
    ensures !Below(b, a)
  {
    if Below(b, a) {
      BelowIsTransitive(a, b, a);
      NotBelowItself(a);
    }
  }

  ghost predicate InOrder(keys: seq<string>) {
    forall i, j :: 0 <= i < j < |keys| ==> Below(keys[i], keys[j])
  }

  /** Where `key` belongs among ascending keys. */
  method PlaceOf(keys: seq<string>, key: string) returns (at: nat)
    requires InOrder(keys) && key !in keys
    ensures at <= |keys|
    ensures forall i :: 0 <= i < at ==> Below(keys[i], key)
    ensures forall i :: at <= i < |keys| ==> Below(key, keys[i])
  {
    at := 0;
    while at < |keys| && Below(keys[at], key)
      invariant at <= |keys|
      invariant forall i :: 0 <= i < at ==> Below(keys[i], key)
    {
      at := at + 1;
    }
    forall i | at <= i < |keys| ensures Below(key, keys[i]) {
      BelowIsTotal(keys[at], key);
      if at < i {
        BelowIsTransitive(key, keys[at], keys[i]);
      }
    }
  }

  /** The elements of a set in ascending order; there is only one such sequence. */
  method SortedKeys(s: set<string>) returns (keys: seq<string>)
    ensures InOrder(keys)
    ensures forall k :: k in keys <==> k in s
  {
    keys := [];
    var todo := s;
    while todo != {}
      invariant todo <= s
      invariant InOrder(keys)
      invariant forall k :: k in keys <==> k in s && k !in todo
      decreases |todo|
    {
      var key :| key in todo;
      var at := PlaceOf(keys, key);
      keys := keys[..at] + [key] + keys[at..];
      todo := todo - {key};
    }
  }
}
