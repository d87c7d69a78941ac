/** Update stamps: strings compared as Python compares them, character by character; the empty string is the least. */
module Stamps {
  predicate Le(a: string, b: string) {
    a == "" || (b != "" && (a[0] < b[0] || (a[0] == b[0] && Le(a[1..], b[1..]))))
  }

  /** `max(a, b)` */
  function Max(a: string, b: string): string { if Le(b, a) then a else b }

  lemma {:induction false} Reflexive(a: string)
    ensures Le(a, a)
  {
    if a != "" { Reflexive(a[1..]); }
  }

  lemma {:induction false} Total(a: string, b: string)
    ensures Le(a, b) || Le(b, a)
  {
    if a != "" && b != "" { Total(a[1..], b[1..]); }
  }

  lemma {:induction false} Transitive(a: string, b: string, c: string)
    requires Le(a, b) && Le(b, c)
    ensures Le(a, c)
  {
    if a != "" { if a[0] == b[0] == c[0] { Transitive(a[1..], b[1..], c[1..]); } }
  }

  lemma {:induction false} Antisymmetric(a: string, b: string)
    requires Le(a, b) && Le(b, a)
    ensures a == b
  {
    if a != "" { Antisymmetric(a[1..], b[1..]); }
  }

  lemma MaxBounds(a: string, b: string)
    ensures Le(a, Max(a, b)) && Le(b, Max(a, b)) && (Max(a, b) == a || Max(a, b) == b)
  {
    Reflexive(a);
    Reflexive(b);
    Total(a, b);
  }
}
