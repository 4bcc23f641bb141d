/** Concatenation of sequences. */
module Sequences {

  lemma Assoc<T>(a: seq<T>, b: seq<T>, c: seq<T>)
    ensures (a + b) + c == a + (b + c)
  {
  }

  function Flat<T>(parts: seq<seq<T>>): seq<T> {
    if |parts| == 0 then [] else parts[0] + Flat(parts[1..])
  }

  lemma {:induction false} FlatSnoc<T>(parts: seq<seq<T>>, c: seq<T>)
    ensures Flat(parts + [c]) == Flat(parts) + c
    decreases |parts|
  {
    if |parts| == 0 {
      assert (parts + [c])[1..] == [] && Flat(parts) + c == c;
    } else {
      FlatSnoc(parts[1..], c);
      assert (parts + [c])[1..] == parts[1..] + [c];
      Assoc(parts[0], Flat(parts[1..]), c);
    }
  }
}
