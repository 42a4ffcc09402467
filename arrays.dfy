/**
 * The JavaScript array operations the two servers are built from:
 * `find`, `findIndex`, `filter` and `splice(i, 1)`, over sequences and
 * predicates given as total functions.
 */
module Arrays {
  import opened Wrappers

  /** `k` is the index `findIndex(p)` returns: the first element satisfying `p`. */
  ghost predicate IsFirst<T>(s: seq<T>, p: T -> bool, k: int)
  {
    0 <= k < |s| && p(s[k]) && forall j :: 0 <= j < k ==> !p(s[j])
  }

  /** `Array.prototype.findIndex`, with `None` standing for `-1`. */
  function FindIndex<T>(s: seq<T>, p: T -> bool): (r: Option<nat>)
    ensures r.Some? ==> IsFirst(s, p, r.value)
    ensures r.None? <==> forall j :: 0 <= j < |s| ==> !p(s[j])
    decreases |s|
  {
    if |s| == 0 then None
    else if p(s[0]) then Some(0)
    else match FindIndex(s[1..], p)
      case None => None
      case Some(i) => Some(i + 1)
  }

  /** `Array.prototype.find`, with `None` standing for `undefined`. */
  function Find<T>(s: seq<T>, p: T -> bool): (r: Option<T>)
    ensures r.None? <==> forall j :: 0 <= j < |s| ==> !p(s[j])
    ensures r.Some? ==> exists k :: IsFirst(s, p, k) && s[k] == r.value
  {
    match FindIndex(s, p)
    case None => None
    case Some(i) => Some(s[i])
  }

  /** `Array.prototype.filter`: the elements satisfying `p`, in their original order. */
  function Filter<T(!new)>(s: seq<T>, p: T -> bool): (r: seq<T>)
    ensures |r| <= |s|
    ensures forall x :: x in r <==> x in s && p(x)
    decreases |s|
  {
    if |s| == 0 then []
    else if p(s[0]) then [s[0]] + Filter(s[1..], p)
    else Filter(s[1..], p)
  }

  /** `splice(i, 1)`: the sequence with the element at `i` removed. */
  function Splice<T>(s: seq<T>, i: nat): (r: seq<T>)
    requires i < |s|
    ensures |r| == |s| - 1
    ensures forall j :: 0 <= j < i ==> r[j] == s[j]
    ensures forall j :: i <= j < |r| ==> r[j] == s[j + 1]
    ensures multiset(r) + multiset{s[i]} == multiset(s)
  {
    assert s == s[..i] + [s[i]] + s[i + 1..];
    s[..i] + s[i + 1..]
  }

  /** Filtering distributes over concatenation, so it keeps storage order. */
  lemma {:induction false} FilterAppend<T(!new)>(s: seq<T>, t: seq<T>, p: T -> bool)
    ensures Filter(s + t, p) == Filter(s, p) + Filter(t, p)
    decreases |s|
  {
    if |s| == 0 {
      assert s + t == t;
    } else {
      assert (s + t)[1..] == s[1..] + t;
      FilterAppend(s[1..], t, p);
    }
  }

  /** `filter` drops nothing exactly when every element satisfies the predicate. */
  lemma {:induction false} FilterKeepsLength<T(!new)>(s: seq<T>, p: T -> bool)
    ensures |Filter(s, p)| == |s| <==> forall j :: 0 <= j < |s| ==> p(s[j])
    decreases |s|
  {
    if |s| > 0 {
      FilterKeepsLength(s[1..], p);
      if p(s[0]) {
        assert forall j :: 1 <= j < |s| ==> s[j] == s[1..][j - 1];
      } else {
        assert |Filter(s, p)| < |s|;
      }
    }
  }

  /** An element appended after elements that all fail `p` is the first to satisfy it. */
  lemma {:induction false} FindIndexAppended<T>(s: seq<T>, x: T, p: T -> bool)
    requires forall j :: 0 <= j < |s| ==> !p(s[j])
    requires p(x)
    ensures FindIndex(s + [x], p) == Some(|s|)
  {
    var r := FindIndex(s + [x], p);
    assert (s + [x])[|s|] == x;
    assert forall j :: 0 <= j < |s| ==> (s + [x])[j] == s[j];
  }

  /** Appending does not disturb a match already present. */
  lemma {:induction false} FindIndexAppendedLater<T>(s: seq<T>, x: T, p: T -> bool, k: nat)
    requires FindIndex(s, p) == Some(k)
    ensures FindIndex(s + [x], p) == Some(k)
  {
    var r := FindIndex(s + [x], p);
    assert (s + [x])[k] == s[k];
    assert forall j :: 0 <= j < |s| ==> (s + [x])[j] == s[j];
  }

  /** Replacing the first match by another element that satisfies `p` keeps it first. */
  lemma {:induction false} FindIndexAfterUpdate<T>(s: seq<T>, p: T -> bool, k: nat, x: T)
    requires FindIndex(s, p) == Some(k)
    requires p(x)
    ensures FindIndex(s[k := x], p) == Some(k)
  {
    var r := FindIndex(s[k := x], p);
    assert s[k := x][k] == x;
    assert forall j :: 0 <= j < k ==> s[k := x][j] == s[j];
  }
}
