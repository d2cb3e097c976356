/** Shared datatypes and small facts about sequences. */
module Prelude {

  datatype Option<+T> = None | Some(value: T)

  datatype Result<+T, +E> = Ok(value: T) | Err(error: E)

  /** A byte as a number. */
  type Byte = b: int | 0 <= b < 256

  /** Two bytes as a number, most significant first. */
  function U16(hi: Byte, lo: Byte): nat {
    hi as int * 256 + lo as int
  }

  /** The byte order: a number below 2^16 is read from its high byte and its low
      byte, and from no other pair. */
  lemma U16Exactly(hi: Byte, lo: Byte, n: nat)
    ensures U16(hi, lo) == n <==> n < 0x1_0000 && hi == n / 256 && lo == n % 256
  {
  }

  predicate Distinct<T(==)>(s: seq<T>) {
    forall i, j :: 0 <= i < j < |s| ==> s[i] != s[j]
  }

  /** The elements of `s` other than `x`, in order. */
  function Without<T(==, !new)>(s: seq<T>, x: T): (r: seq<T>)
    ensures x !in r
    ensures forall y :: y in r <==> y in s && y != x
  {
    if s == [] then []
    else if s[|s| - 1] == x then Without(s[..|s| - 1], x)
    else Without(s[..|s| - 1], x) + [s[|s| - 1]]
  }

  lemma {:induction false} WithoutAbsent<T(!new)>(s: seq<T>, x: T)
    requires x !in s
    ensures Without(s, x) == s
  {
    if s != [] {
      WithoutAbsent(s[..|s| - 1], x);
      assert s == s[..|s| - 1] + [s[|s| - 1]];
    }
  }

  /** What remains keeps its order. */
  lemma {:induction false} WithoutConcat<T(!new)>(s: seq<T>, t: seq<T>, x: T)
    ensures Without(s + t, x) == Without(s, x) + Without(t, x)
  {
    if t == [] {
      assert s + t == s;
    } else {
      var n := |t| - 1;
      WithoutConcat(s, t[..n], x);
      assert (s + t)[..|s + t| - 1] == s + t[..n];
    }
  }

  lemma {:induction false} WithoutDistinct<T(!new)>(s: seq<T>, x: T)
    requires Distinct(s)
    ensures Distinct(Without(s, x))
  {
    if s != [] {
      var init := s[..|s| - 1];
      WithoutDistinct(init, x);
      assert s[|s| - 1] !in init;
    }
  }

  lemma {:induction false} WithoutCount<T(!new)>(s: seq<T>, x: T, y: T)
    ensures multiset(Without(s, x))[y] == if x == y then 0 else multiset(s)[y]
  {
    if s != [] {
      var init, last := s[..|s| - 1], s[|s| - 1];
      WithoutCount(init, x, y);
      assert s == init + [last];
      assert multiset(s)[y] == multiset(init)[y] + multiset([last])[y];
    }
  }

  lemma {:induction false} DistinctCount<T>(s: seq<T>, x: T)
    requires Distinct(s)
    ensures multiset(s)[x] == if x in s then 1 else 0
  {
    if s != [] {
      var n := |s| - 1;
      assert s == s[..n] + [s[n]];
      DistinctCount(s[..n], x);
    }
  }
}
