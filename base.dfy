/** Small value types and sequence helpers shared by the rest of the model. */
module Base {

  /** JavaScript's `undefined`/`null` versus a present value. */
  datatype Option<+T> = None | Some(value: T) {
    function GetOr(default: T): T {
      match this
      case Some(v) => v
      case None => default
    }
  }

  /** A rejected promise carries an error; a resolved one a value. */
  datatype Result<+T, +E> = Ok(value: T) | Err(error: E)

  function Min(a: int, b: int): int { if a <= b then a else b }

  /** `s || fallback` for an optional string: `undefined`, `null` and the
      empty string all fall back. */
  function OrElse(s: Option<seq<char>>, fallback: seq<char>): (r: seq<char>)
    ensures s.Some? && s.value != [] ==> r == s.value
    ensures s.None? || s.value == [] ==> r == fallback
  {
    if s.Some? && s.value != [] then s.value else fallback
  }

  /** `Array.prototype.slice(0, n)` for n >= 0. */
  function Take<T>(s: seq<T>, n: nat): (r: seq<T>)
    ensures |r| == Min(n, |s|)
    ensures r == s[..|r|]
  {
    if n <= |s| then s[..n] else s
  }

  /** No element occurs twice. */
  predicate Distinct<T(==)>(s: seq<T>) {
    forall i, j :: 0 <= i < j < |s| ==> s[i] != s[j]
  }

  /** `s.filter((t) => t !== x)`: every element different from `x`, in order. */
  function Without<T(==)>(s: seq<T>, x: T): (r: seq<T>)
    ensures x !in r
    ensures forall i :: 0 <= i < |r| ==> r[i] in s && r[i] != x
    ensures forall i :: 0 <= i < |s| && s[i] != x ==> s[i] in r
    ensures |r| <= |s|
    ensures multiset(r) == multiset(s)[x := 0]
  {
    if s == [] then []
    else
      assert s == [s[0]] + s[1..];
      if s[0] == x then Without(s[1..], x)
      else [s[0]] + Without(s[1..], x)
  }

  /** `s` is obtained from `t` by deleting elements (order kept). */
  predicate IsSubsequence<T(==)>(s: seq<T>, t: seq<T>)
    decreases |t|
  {
    if s == [] then true
    else if t == [] then false
    else if s[0] == t[0] then IsSubsequence(s[1..], t[1..])
    else IsSubsequence(s, t[1..])
  }

  lemma {:induction false} WithoutIsSubsequence<T>(s: seq<T>, x: T)
    ensures IsSubsequence(Without(s, x), s)
  {
    if s != [] {
      WithoutIsSubsequence(s[1..], x);
      if s[0] != x {
        assert ([s[0]] + Without(s[1..], x))[1..] == Without(s[1..], x);
      }
    }
  }

  lemma {:induction false} SubsequenceRefl<T>(t: seq<T>)
    ensures IsSubsequence(t, t)
  {
    if t != [] {
      SubsequenceRefl(t[1..]);
    }
  }

  /** A prefix of a subsequence is a subsequence. */
  lemma {:induction false} PrefixOfSubsequence<T>(s: seq<T>, t: seq<T>, n: nat)
    requires IsSubsequence(s, t) && n <= |s|
    ensures IsSubsequence(s[..n], t)
    decreases |t|
  {
    if n > 0 {
      if s[0] == t[0] {
        PrefixOfSubsequence(s[1..], t[1..], n - 1);
        assert s[..n][1..] == s[1..][..n - 1];
      } else {
        PrefixOfSubsequence(s, t[1..], n);
      }
    }
  }

  /** Removing an element that is absent is the identity. */
  lemma {:induction false} WithoutAbsent<T>(s: seq<T>, x: T)
    requires x !in s
    ensures Without(s, x) == s
  {
    if s != [] {
      WithoutAbsent(s[1..], x);
    }
  }

  lemma {:induction false} WithoutAppend<T>(s: seq<T>, t: seq<T>, x: T)
    ensures Without(s + t, x) == Without(s, x) + Without(t, x)
  {
    if s == [] {
      assert s + t == t;
    } else {
      assert (s + t)[1..] == s[1..] + t;
      WithoutAppend(s[1..], t, x);
    }
  }

  /** An element absent from a sequence without duplicates can go in front. */
  lemma DistinctCons<T>(a: T, t: seq<T>)
    requires a !in t && Distinct(t)
    ensures Distinct([a] + t)
  {
    var r := [a] + t;
    forall i, j | 0 <= i < j < |r| ensures r[i] != r[j] {
      assert r[j] == t[j - 1];
      if i > 0 {
        assert r[i] == t[i - 1];
      }
    }
  }

  lemma DistinctTail<T>(s: seq<T>)
    requires s != [] && Distinct(s)
    ensures s[0] !in s[1..] && Distinct(s[1..])
  {
    var t := s[1..];
    forall i, j | 0 <= i < j < |t| ensures t[i] != t[j] {
      assert t[i] == s[i + 1] && t[j] == s[j + 1];
    }
    forall k | 0 <= k < |t| ensures t[k] != s[0] {
      assert t[k] == s[k + 1];
    }
  }

  lemma {:induction false} WithoutDistinct<T>(s: seq<T>, x: T)
    requires Distinct(s)
    ensures Distinct(Without(s, x))
  {
    if s != [] {
      DistinctTail(s);
      WithoutDistinct(s[1..], x);
      if s[0] != x {
        DistinctCons(s[0], Without(s[1..], x));
      }
    }
  }

  /** `s.filter((_, i) => i !== index)`: drops position `index`, if there is one. */
  function RemoveAt<T>(s: seq<T>, index: int): (r: seq<T>)
    ensures 0 <= index < |s| ==> |r| == |s| - 1
    ensures !(0 <= index < |s|) ==> r == s
    ensures forall j :: 0 <= j < |r| ==> r[j] == (if index < 0 || j < index then s[j] else s[j + 1])
  {
    if 0 <= index < |s| then s[..index] + s[index + 1..] else s
  }
}
