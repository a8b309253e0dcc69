/** Small shared types and sequence lemmas. */
module Prelude {

  datatype Option<+T> = None | Some(value: T)

  datatype Result<+T, +E> = Ok(value: T) | Err(error: E)

  /** How a call with one effect ends: normally, by raising before the effect, or by raising after it. */
  datatype Fault = Fine | RaisesBefore | RaisesAfter

  /** The elements of `s` that satisfy `p`, in their order. */
  function Filter<T(!new)>(s: seq<T>, p: T -> bool): (r: seq<T>)
    ensures forall x :: x in r <==> x in s && p(x)
    ensures |r| <= |s|
  {
    if s == [] then [] else (if p(s[0]) then [s[0]] else []) + Filter(s[1..], p)
  }

  lemma FilterAppend<T(!new)>(s: seq<T>, t: seq<T>, p: T -> bool)
    ensures Filter(s + t, p) == Filter(s, p) + Filter(t, p)
  {
    if s == [] {
      assert s + t == t;
    } else {
      assert (s + t)[1..] == s[1..] + t;
      FilterAppend(s[1..], t, p);
    }
  }

  lemma FilterAll<T(!new)>(s: seq<T>, p: T -> bool)
    requires forall x :: x in s ==> p(x)
    ensures Filter(s, p) == s
  {
    if s != [] {
      FilterAll(s[1..], p);
    }
  }

  /** At most the first `n` elements. */
  function Take<T>(s: seq<T>, n: nat): (r: seq<T>)
    ensures r <= s && |r| == if n < |s| then n else |s|
  {
    if n < |s| then s[..n] else s
  }

  /** Reading on from position `n` of `s`. */
  lemma NextStretch<T>(s: seq<T>, n: nat, size: nat, page: seq<T>)
    requires n <= |s| && size > 0 && page == Take(s[n..], size)
    ensures n + |page| <= |s| && s[..n] + page == s[..n + |page|]
    ensures |page| == 0 <==> n == |s|
    ensures |page| > 0 ==> page[|page| - 1] == s[n + |page| - 1]
  {
  }
}
