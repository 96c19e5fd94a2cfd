/** Document-order search over a sequence: the "first element that
    matches" shape shared by `soup.find`, and by the `for ...: if ...:
    break` loops, and the order-preserving filter `soup.find_all`. */
module Search {
  import opened Wrappers

  /** `i` is the first position of `s` whose element satisfies `p`. */
  ghost predicate IsFirst<T>(s: seq<T>, p: T -> bool, i: int) {
    0 <= i < |s| && p(s[i]) && forall j :: 0 <= j < i ==> !p(s[j])
  }

  /** No element of `s` satisfies `p`. */
  ghost predicate NoneSatisfy<T>(s: seq<T>, p: T -> bool) {
    forall j :: 0 <= j < |s| ==> !p(s[j])
  }

  /** The position of the first element satisfying `p`, or None. */
  function FirstIndex<T>(s: seq<T>, p: T -> bool): (r: Option<nat>)
    ensures r.Some? ==> IsFirst(s, p, r.value)
    ensures r.None? <==> NoneSatisfy(s, p)
  {
    if |s| == 0 then None
    else if p(s[0]) then Some(0)
    else
      match FirstIndex(s[1..], p)
      case None => None
      case Some(i) => Some(i + 1)
  }

  /** The first element satisfying `p` in order, or None. */
  function Find<T>(s: seq<T>, p: T -> bool): (r: Option<T>)
    ensures r.Some? ==> r.value in s && p(r.value)
    ensures r.None? <==> NoneSatisfy(s, p)
  {
    match FirstIndex(s, p)
    case None => None
    case Some(i) => Some(s[i])
  }

  /** What Find yields is the element at the first matching position. */
  lemma FindIsFirst<T>(s: seq<T>, p: T -> bool)
    requires Find(s, p).Some?
    ensures exists i :: IsFirst(s, p, i) && s[i] == Find(s, p).value
  {
    var i := FirstIndex(s, p).value;
    assert IsFirst(s, p, i);
  }

  /** When `i` is the first match, Find yields exactly `s[i]`. */
  lemma FindFirst<T>(s: seq<T>, p: T -> bool, i: int)
    requires IsFirst(s, p, i)
    ensures Find(s, p) == Some(s[i])
  {
  }

  /** The elements of `s` satisfying `p`, in their original order. */
  function Filter<T>(s: seq<T>, p: T -> bool): (r: seq<T>)
    ensures |r| <= |s|
    ensures forall i :: 0 <= i < |r| ==> r[i] in s && p(r[i])
    ensures forall j :: 0 <= j < |s| && p(s[j]) ==> s[j] in r
  {
    if |s| == 0 then []
    else if p(s[0]) then [s[0]] + Filter(s[1..], p)
    else Filter(s[1..], p)
  }

  /** Searching the filtered sequence for `q` is the same as searching the
      whole sequence for "`p` and `q`": filtering keeps document order. */
  lemma {:induction false} FindInFilter<T>(s: seq<T>, p: T -> bool, q: T -> bool, pq: T -> bool)
    requires forall x :: pq(x) == (p(x) && q(x))
    ensures Find(Filter(s, p), q) == Find(s, pq)
  {
    if |s| == 0 {
    } else {
      FindInFilter(s[1..], p, q, pq);
      var rest := Filter(s[1..], p);
      if pq(s[0]) {
        FindFirst(s, pq, 0);
        FindFirst([s[0]] + rest, q, 0);
      } else {
        if p(s[0]) {
          var f := [s[0]] + rest;
          assert !q(s[0]);
          FindTail(f, q);
        }
        FindTail(s, pq);
      }
    }
  }

  /** Skipping a non-matching head element leaves Find unchanged. */
  lemma FindTail<T>(s: seq<T>, p: T -> bool)
    requires |s| > 0 && !p(s[0])
    ensures Find(s, p) == Find(s[1..], p)
  {
    match Find(s[1..], p)
    case None =>
      assert NoneSatisfy(s, p) by {
        forall j | 0 < j < |s| ensures !p(s[j]) {
          assert s[j] == s[1..][j - 1];
        }
      }
    case Some(x) =>
      FindIsFirst(s[1..], p);
      var i :| IsFirst(s[1..], p, i) && s[1..][i] == x;
      assert IsFirst(s, p, i + 1) by {
        forall j | 0 < j < i + 1 ensures !p(s[j]) {
          assert s[j] == s[1..][j - 1];
        }
      }
      FindFirst(s, p, i + 1);
  }
}
