/** Small helpers shared by the models: bounds, first-match search and Python's
    slice and `list.insert` index rules. */
module Util {

  function Min(a: int, b: int): int { if a <= b then a else b }

  function Max(a: int, b: int): int { if a >= b then a else b }

  /** The least index in [k, n) at which `p` holds, or `n` when there is none. */
  function FirstWhere(p: nat -> bool, k: nat, n: nat): (r: nat)
    requires k <= n
    ensures k <= r <= n
    ensures forall j :: k <= j < r ==> !p(j)
    ensures r < n ==> p(r)
    decreases n - k
  {
    if k == n then n
    else if p(k) then k
    else FirstWhere(p, k + 1, n)
  }

  /** The first index of a search is unique: any index that satisfies `p` and has
      no earlier match is the one `FirstWhere` finds. */
  lemma FirstWhereIs(p: nat -> bool, n: nat, i: nat)
    requires i <= n
    requires forall j :: 0 <= j < i ==> !p(j)
    requires i < n ==> p(i)
    ensures FirstWhere(p, 0, n) == i
  {
  }

  /** The middle part of a concatenation is found at its offset. */
  /** Removing one more key is removing the enlarged key set. */
  lemma RemoveOneMore<K, V>(m: map<K, V>, removed: set<K>, k: K)
    ensures (m - removed) - {k} == m - (removed + {k})
  {
  }

  lemma MiddleOf<T>(a: seq<T>, b: seq<T>, c: seq<T>)
    ensures (a + b + c)[|a|..|a| + |b|] == b
  {
    assert (a + b + c)[|a|..|a| + |b|] == ((a + b) + c)[|a|..|a + b|];
  }

  /** The length Python's `s[0:stop]` has, for any integer `stop`. */
  function PrefixLength(len: nat, stop: int): (n: nat)
    ensures n <= len
    ensures stop >= 0 ==> n == Min(stop, len)
    ensures stop < 0 ==> n == Max(0, len + stop)
  {
    if stop >= 0 then (if stop <= len then stop else len)
    else if len + stop >= 0 then len + stop else 0
  }

  /** Python's `s[0:stop]`. A negative `stop` counts from the end. */
  function PyPrefix<T>(s: seq<T>, stop: int): (r: seq<T>)
    ensures |r| == PrefixLength(|s|, stop)
    ensures forall i :: 0 <= i < |r| ==> r[i] == s[i]
  {
    s[..PrefixLength(|s|, stop)]
  }

  /** The index at which Python's `list.insert(position, x)` puts `x` in a list of
      length `len`: a negative position counts from the end, and positions beyond
      either end are clamped. */
  function InsertionIndex(position: int, len: nat): (i: nat)
    ensures i <= len
    ensures 0 <= position <= len ==> i == position
    ensures position > len ==> i == len
    ensures position < 0 ==> i == Max(0, len + position)
  {
    if position >= 0 then (if position <= len then position else len)
    else if len + position >= 0 then len + position else 0
  }

  /** Python's `s.insert(position, x)`, as a value. */
  function InsertAt<T>(s: seq<T>, position: int, x: T): (r: seq<T>)
    ensures |r| == |s| + 1
    ensures r[InsertionIndex(position, |s|)] == x
    ensures forall j :: 0 <= j < InsertionIndex(position, |s|) ==> r[j] == s[j]
    ensures forall j :: InsertionIndex(position, |s|) <= j < |s| ==> r[j + 1] == s[j]
    ensures multiset(r) == multiset(s) + multiset{x}
  {
    var i := InsertionIndex(position, |s|);
    assert s == s[..i] + s[i..];
    s[..i] + [x] + s[i..]
  }

  /** Two insertions at the default position 0: the later one ends up first. */
  lemma {:induction false} InsertAtFrontTwice<T>(s: seq<T>, a: T, b: T)
    ensures InsertAt(InsertAt(s, 0, a), 0, b) == [b, a] + s
  {
    var r := InsertAt(InsertAt(s, 0, a), 0, b);
    assert |r| == |s| + 2;
    forall j | 0 <= j < |r| ensures r[j] == ([b, a] + s)[j] {
      if j >= 2 {
        assert r[j] == InsertAt(s, 0, a)[j - 1] == s[j - 2];
      }
    }
  }
}
