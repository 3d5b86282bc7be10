/** First-match search and filtering over listed collections. */
module Lookup {
  import opened Wrappers

  /** The first element of `s` that satisfies `p`, if there is one. */
  function FindFirst<T>(s: seq<T>, p: T -> bool): (r: Option<T>)
    ensures r.None? <==> forall j :: 0 <= j < |s| ==> !p(s[j])
    ensures r.Some? ==> r.value in s && p(r.value)
  {
    if |s| == 0 then None
    else if p(s[0]) then Some(s[0])
    else FindFirst(s[1..], p)
  }

  /** If `s[i]` is the first element that satisfies `p`, the search returns exactly it. */
  lemma {:induction false} FindFirstIsFirst<T>(s: seq<T>, p: T -> bool, i: nat)
    requires i < |s| && p(s[i])
    requires forall j :: 0 <= j < i ==> !p(s[j])
    ensures FindFirst(s, p) == Some(s[i])
  {
    if i > 0 {
      assert !p(s[0]);
      forall j | 0 <= j < i - 1 ensures !p(s[1..][j]) {
        assert s[1..][j] == s[j + 1];
      }
      FindFirstIsFirst(s[1..], p, i - 1);
    }
  }

  /** Appending an element never changes a match already found, and is found itself otherwise. */
  lemma {:induction false} FindFirstAppend<T>(s: seq<T>, x: T, p: T -> bool)
    ensures FindFirst(s + [x], p) ==
      if FindFirst(s, p).Some? then FindFirst(s, p) else if p(x) then Some(x) else None
  {
    if |s| > 0 {
      assert (s + [x])[0] == s[0];
      assert (s + [x])[1..] == s[1..] + [x];
      FindFirstAppend(s[1..], x, p);
    } else {
      assert s + [x] == [x];
    }
  }

  /** The elements of `s` that satisfy `p`, in their order in `s`. */
  function Filter<T>(s: seq<T>, p: T -> bool): (r: seq<T>)
    ensures |r| <= |s|
    ensures forall i :: 0 <= i < |r| ==> r[i] in s && p(r[i])
    ensures forall j :: 0 <= j < |s| && p(s[j]) ==> s[j] in r
  {
    if |s| == 0 then []
    else (if p(s[0]) then [s[0]] else []) + Filter(s[1..], p)
  }

  /** A linear scan in the style of a `for ... : if ...: return` loop. */
  method Scan<T>(s: seq<T>, p: T -> bool) returns (r: Option<T>)
    ensures r == FindFirst(s, p)
  {
    var i := 0;
    while i < |s|
      invariant 0 <= i <= |s|
      invariant FindFirst(s[i..], p) == FindFirst(s, p)
    {
      assert s[i..][1..] == s[i + 1..];
      if p(s[i]) {
        return Some(s[i]);
      }
      i := i + 1;
    }
    return None;
  }

  /** Two sequences that agree on which positions `p` accepts, and on the elements there, give the same first match. */
  lemma {:induction false} FindFirstAgree<T>(s: seq<T>, t: seq<T>, p: T -> bool)
    requires |s| == |t|
    requires forall i :: 0 <= i < |s| ==> (p(s[i]) <==> p(t[i]))
    requires forall i :: 0 <= i < |s| && p(s[i]) ==> s[i] == t[i]
    ensures FindFirst(s, p) == FindFirst(t, p)
  {
    if |s| > 0 && !p(s[0]) {
      forall i | 0 <= i < |s| - 1 ensures (p(s[1..][i]) <==> p(t[1..][i])) && (p(s[1..][i]) ==> s[1..][i] == t[1..][i]) {
        assert s[1..][i] == s[i + 1] && t[1..][i] == t[i + 1];
      }
      FindFirstAgree(s[1..], t[1..], p);
    }
  }

  /** Filtering distributes over appending one element. */
  lemma {:induction false} FilterAppend<T>(s: seq<T>, x: T, p: T -> bool)
    ensures Filter(s + [x], p) == Filter(s, p) + (if p(x) then [x] else [])
  {
    if |s| > 0 {
      assert (s + [x])[0] == s[0];
      assert (s + [x])[1..] == s[1..] + [x];
      FilterAppend(s[1..], x, p);
    } else {
      assert s + [x] == [x];
    }
  }

  /** Filtering keeps order: the kept elements of a prefix one longer are those of the prefix, then that element if kept. */
  lemma FilterPrefix<T>(s: seq<T>, p: T -> bool, i: nat)
    requires i < |s|
    ensures Filter(s[..i + 1], p) == Filter(s[..i], p) + (if p(s[i]) then [s[i]] else [])
  {
    assert s[..i + 1] == s[..i] + [s[i]];
    FilterAppend(s[..i], s[i], p);
  }

  /**
   * Searching the elements that `q` keeps answers the earliest kept element that `p`
   * accepts: `s[i]`, when no kept element before it is accepted.
   */
  lemma {:induction false} FindFirstFiltered<T>(s: seq<T>, q: T -> bool, p: T -> bool, i: nat)
    requires i < |s| && q(s[i]) && p(s[i])
    requires forall j :: 0 <= j < i && q(s[j]) ==> !p(s[j])
    ensures FindFirst(Filter(s, q), p) == Some(s[i])
  {
    if i == 0 {
      assert Filter(s, q) == [s[0]] + Filter(s[1..], q);
    } else {
      forall j | 0 <= j < i - 1 && q(s[1..][j]) ensures !p(s[1..][j]) {
        assert s[1..][j] == s[j + 1];
      }
      FindFirstFiltered(s[1..], q, p, i - 1);
      if q(s[0]) {
        assert Filter(s, q) == [s[0]] + Filter(s[1..], q);
      } else {
        assert Filter(s, q) == Filter(s[1..], q);
      }
    }
  }
}
