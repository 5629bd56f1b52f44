/** Counting occurrences in a sequence. */
module Seqs {

  /** The number of occurrences of x in s. */
  function Count<T(==)>(x: T, s: seq<T>): (n: nat)
    ensures n <= |s|
  {
    if s == [] then 0 else (if s[0] == x then 1 else 0) + Count(x, s[1..])
  }

  lemma {:induction false} CountAppend<T>(x: T, s: seq<T>, t: seq<T>)
    ensures Count(x, s + t) == Count(x, s) + Count(x, t)
  {
    if s == [] {
      assert s + t == t;
    } else {
      assert (s + t)[1..] == s[1..] + t;
      CountAppend(x, s[1..], t);
    }
  }
}
