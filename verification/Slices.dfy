/** Reading a text from a position on. */
module Slices {
  // What stands in `text` from `i` on.
  predicate Reads<T(==)>(text: seq<T>, i: nat, part: seq<T>) {
    i + |part| <= |text| && text[i..i + |part|] == part
  }

  lemma ReadsSplit<T>(text: seq<T>, i: nat, a: seq<T>, b: seq<T>)
    requires Reads(text, i, a + b)
    ensures Reads(text, i, a) && Reads(text, i + |a|, b)
  {
    var whole := text[i..i + |a + b|];
    assert whole == a + b;
    assert text[i..i + |a|] == whole[..|a|] == a;
    assert text[i + |a|..i + |a| + |b|] == whole[|a|..] == b;
  }

  lemma ReadsAt<T>(text: seq<T>, i: nat, part: seq<T>, k: nat)
    requires Reads(text, i, part) && k < |part|
    ensures text[i + k] == part[k]
  { }

  lemma ReadsEnd<T>(text: seq<T>, i: nat, part: seq<T>)
    requires Reads(text, i, part)
    ensures i + |part| <= |text|
  { }
}
