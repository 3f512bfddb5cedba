/** Facts about products and set sizes that several models use. */
module Arithmetic {
  lemma ProductIsNat(a: nat, b: nat)
    ensures a * b >= 0
  {
  }

  lemma Magnitude(k: int, unit: int)
    requires unit > 0
    ensures k >= 1 ==> k * unit >= unit
    ensures k <= -1 ==> k * unit <= -unit
  {
  }

  /** Dividing a multiple loses nothing. */
  lemma ExactQuotient(k: nat, unit: nat)
    requires unit > 0
    ensures k * unit / unit == k && k * unit % unit == 0
  {
    var d, r := k * unit / unit, k * unit % unit;
    assert (k - d) * unit == r;
    Magnitude(k - d, unit);
  }

  /** What is left to visit does not grow. */
  lemma SmallerRest<T>(all: set<T>, before: set<T>, after: set<T>)
    requires before <= after
    ensures |all - after| <= |all - before|
  {
    assert all - before == (all - after) + ((all - before) * after);
    assert (all - after) !! ((all - before) * after);
  }

  /** Visiting one more leaves strictly less. */
  lemma StrictlySmallerRest<T>(all: set<T>, before: set<T>, after: set<T>, x: T)
    requires before + {x} <= after && x in all && x !in before
    ensures |all - after| < |all - before|
  {
    SmallerRest(all, before + {x}, after);
    assert all - before == (all - (before + {x})) + {x};
  }
}
