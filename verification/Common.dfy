/**
 What the layers share: the device categories, the permission levels and the policy entries sent to the kernel helper.
 */
module Common {
  datatype Category = Microphone | Camera | Monitor

  datatype Permission = Allow | WhileInUse | Ask | Deny

  type Perms = bv32

  const PERM_CAMERA: Perms := 1
  const PERM_AUDIO: Perms := 2

  /** One executable and the permission bits it holds. */
  datatype PolicyEntry = PolicyEntry(exePath: string, perms: Perms)

  function And(x: Perms, y: Perms): Perms {
    x & y
  }

  function Or(x: Perms, y: Perms): Perms {
    x | y
  }

  /** The word holds one of the bits of the mask. */
  predicate Has(x: Perms, m: Perms) {
    And(x, m) != 0
  }

  lemma Distributes(x: Perms, y: Perms, mask: Perms)
    ensures And(Or(x, y), mask) == Or(And(x, mask), And(y, mask))
  {
  }

  lemma OrIsZero(x: Perms, y: Perms)
    ensures Or(x, y) == 0 <==> x == 0 && y == 0
  {
  }

  lemma OrHas(x: Perms, y: Perms, mask: Perms)
    ensures Has(Or(x, y), mask) <==> Has(x, mask) || Has(y, mask)
  {
    hide And, Or;
    Distributes(x, y, mask);
    OrIsZero(And(x, mask), And(y, mask));
  }

  lemma ZeroHasNone(mask: Perms)
    ensures !Has(0, mask)
  {
  }

  lemma Difference(x: Perms, y: Perms)
    ensures !Has(y, x & !y)
    ensures x & !y != 0 ==> Has(x, x & !y)
    ensures x & !y == 0 && y & !x == 0 ==> x == y
  {
  }

  /** A subset is no larger, and all of it if it is as large. */
  lemma {:induction false} SubsetCard<T>(a: set<T>, b: set<T>)
    requires a <= b
    ensures |a| <= |b| && (|a| == |b| ==> a == b)
  {
    if x :| x in a {
      SubsetCard(a - {x}, b - {x});
    } else if x :| x in b {
    }
  }

  /** Two words that answer every mask alike are the same word. */
  lemma SameBits(x: Perms, y: Perms)
    requires forall m: Perms :: Has(x, m) <==> Has(y, m)
    ensures x == y
  {
    hide Has;
    Difference(x, y);
    Difference(y, x);
  }
}
