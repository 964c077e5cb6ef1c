/** The ordered dictionary behind every bounded cache of the API: oldest entry first, hits move to
    the end, overflow leaves at the front.  Its meaning is given by the history of lookups alone. */
module Lru {
  import opened Wrappers

  // ---------------------------------------------------------------- the ordered dictionary

  function Keys<K, V>(es: seq<(K, V)>): (ks: seq<K>)
    ensures |ks| == |es| && forall i | 0 <= i < |es| :: ks[i] == es[i].0
  {
    seq(|es|, i requires 0 <= i < |es| => es[i].0)
  }

  predicate Distinct<K(==)>(ks: seq<K>) {
    forall i, j | 0 <= i < j < |ks| :: ks[i] != ks[j]
  }

  function IndexOf<K(==)>(ks: seq<K>, k: K): (i: nat)
    requires k in ks
    ensures i < |ks| && ks[i] == k && k !in ks[..i]
  {
    if ks[0] == k then 0 else 1 + IndexOf(ks[1..], k)
  }

  function Without<K(==)>(ks: seq<K>, k: K): seq<K> {
    if k in ks then ks[..IndexOf(ks, k)] + ks[IndexOf(ks, k) + 1..] else ks
  }

  /** `move_to_end`. */
  function Touch<K(==)>(ks: seq<K>, k: K): seq<K> {
    Without(ks, k) + [k]
  }

  function Last<T>(s: seq<T>, n: nat): (r: seq<T>)
    ensures |r| == if |s| <= n then |s| else n
  {
    if |s| <= n then s else s[|s| - n..]
  }

  lemma FirstIndex<K>(ks: seq<K>, k: K, i: nat)
    requires i < |ks| && ks[i] == k && k !in ks[..i]
    ensures k in ks && IndexOf(ks, k) == i
  {
    var x := IndexOf(ks, k);
    assert forall y | 0 <= y < i :: ks[..i][y] == ks[y];
    assert forall y | 0 <= y < x :: ks[..x][y] == ks[y];
  }

  lemma Parts<K>(ks: seq<K>, k: K) returns (a: seq<K>, b: seq<K>)
    requires k in ks
    ensures ks == a + ([k] + b) && k !in a && |a| == IndexOf(ks, k)
  {
    var i := IndexOf(ks, k);
    a, b := ks[..i], ks[i + 1..];
  }

  lemma TouchOf<K>(a: seq<K>, k: K, b: seq<K>)
    requires k !in a
    ensures k in a + ([k] + b) && IndexOf(a + ([k] + b), k) == |a|
    ensures Touch(a + ([k] + b), k) == a + (b + [k])
  {
    var ks := a + ([k] + b);
    assert ks[|a|] == k && ks[..|a|] == a && ks[|a| + 1..] == b;
    FirstIndex(ks, k, |a|);
    assert (a + b) + [k] == a + (b + [k]);
  }

  /** Where each key of the touched list was before. */
  function Origin<K(==)>(ks: seq<K>, k: K, j: nat): nat {
    if k in ks && j >= IndexOf(ks, k) then j + 1 else j
  }

  lemma TouchAt<K>(ks: seq<K>, k: K)
    ensures |Touch(ks, k)| == if k in ks then |ks| else |ks| + 1
    ensures Touch(ks, k)[|Touch(ks, k)| - 1] == k
    ensures forall j | 0 <= j < |Touch(ks, k)| - 1 ::
              Origin(ks, k, j) < |ks| && Touch(ks, k)[j] == ks[Origin(ks, k, j)]
  {
    if k in ks {
      var a, b := Parts(ks, k);
      TouchOf(a, k, b);
      MovedBack(a, k, b);
    }
  }

  lemma MovedBack<T>(a: seq<T>, k: T, b: seq<T>)
    ensures forall j | 0 <= j < |a| + |b| :: (a + (b + [k]))[j] == (a + ([k] + b))[if j >= |a| then j + 1 else j]
    ensures (a + (b + [k]))[|a| + |b|] == k
  {
  }

  lemma TouchDistinct<K>(ks: seq<K>, k: K)
    requires Distinct(ks)
    ensures Distinct(Touch(ks, k)) && |Touch(ks, k)| == if k in ks then |ks| else |ks| + 1
  {
    TouchAt(ks, k);
  }

  lemma TouchMembers<K>(ks: seq<K>, k: K)
    ensures forall x <- ks :: x in Touch(ks, k)
    ensures forall x <- Touch(ks, k) :: x in ks || x == k
  {
    TouchAt(ks, k);
    forall x | x in ks ensures x in Touch(ks, k) {
      KeyStays(ks, k, x);
    }
  }

  lemma KeyStays<K>(ks: seq<K>, k: K, x: K)
    requires x in ks
    ensures x in Touch(ks, k)
  {
    if x == k {
      assert Touch(ks, k) == Without(ks, k) + [k];
    } else if k in ks {
      var i := IndexOf(ks, k);
      assert ks == ks[..i] + [k] + ks[i + 1..];
      assert x in ks[..i] || x in ks[i + 1..];
    }
  }

  // ---------------------------------------------------------------- lookups one at a time

  /** What one successful lookup does to the keys of a cache of capacity `n`. */
  function LookupKeys<K(==)>(ks: seq<K>, k: K, n: nat): seq<K> {
    if k in ks then Touch(ks, k) else Last(ks + [k], n)
  }

  function CacheKeys<K(==)>(history: seq<K>, n: nat): seq<K> {
    if history == [] then []
    else LookupKeys(CacheKeys(history[..|history| - 1], n), history[|history| - 1], n)
  }

  /** All keys ever looked up, least recently used first. */
  function Recency<K(==)>(history: seq<K>): seq<K> {
    if history == [] then []
    else Touch(Recency(history[..|history| - 1]), history[|history| - 1])
  }

  lemma Regroup<T>(a: seq<T>, b: seq<T>, c: seq<T>)
    ensures (a + b) + c == a + (b + c)
  {
  }

  lemma LastOfConcat<T>(a: seq<T>, b: seq<T>, n: nat)
    requires n <= |b|
    ensures Last(a + b, n) == Last(b, n)
  {
  }

  /** A key of the tail is touched there. */
  lemma TouchInTail<K>(p: seq<K>, t: seq<K>, k: K)
    requires k in t && k !in p
    ensures Touch(p + t, k) == p + Touch(t, k) && |Touch(t, k)| == |t|
  {
    var a, b := Parts(t, k);
    TouchOf(a, k, b);
    TouchOf(p + a, k, b);
    Regroup(p, a, [k] + b);
    Regroup(p, a, b + [k]);
  }

  /** A key in front of the tail comes to its end. */
  lemma TouchInFront<K>(p: seq<K>, t: seq<K>, k: K) returns (q: seq<K>)
    requires k in p
    ensures Touch(p + t, k) == q + (t + [k])
  {
    var a, b := Parts(p, k);
    TouchOf(a, k, b + t);
    q := a + b;
    Regroup(a, [k] + b, t);
    Regroup([k], b, t);
    Regroup(b, t, [k]);
    Regroup(a, b, t + [k]);
  }

  /** The full cache holds the last keys `t` of the order `p + t`. */
  lemma LookupInFull<K>(p: seq<K>, t: seq<K>, k: K)
    requires k in p ==> k !in t
    ensures LookupKeys(t, k, |t|) == Last(Touch(p + t, k), |t|)
  {
    if k in t {
      TouchInTail(p, t, k);
      LastOfConcat(p, Touch(t, k), |t|);
    } else if k in p {
      var q := TouchInFront(p, t, k);
      LastOfConcat(q, t + [k], |t|);
    } else {
      Regroup(p, t, [k]);
      LastOfConcat(p, t + [k], |t|);
    }
  }

  lemma SplitAtTail<K>(r: seq<K>, n: nat) returns (p: seq<K>)
    requires Distinct(r) && n < |r|
    ensures r == p + Last(r, n) && |Last(r, n)| == n
    ensures forall k :: k in p ==> k !in Last(r, n)
  {
    p := r[..|r| - n];
    forall i, j | 0 <= i < |p| && 0 <= j < n ensures p[i] != Last(r, n)[j] {
      assert p[i] == r[i] && Last(r, n)[j] == r[|p| + j];
    }
  }

  lemma LastOfTouch<K>(r: seq<K>, k: K, n: nat)
    requires Distinct(r)
    ensures LookupKeys(Last(r, n), k, n) == Last(Touch(r, k), n)
  {
    if |r| > n {
      var p := SplitAtTail(r, n);
      LookupInFull(p, Last(r, n), k);
    } else {
      TouchAt(r, k);
    }
  }

  lemma {:induction false} RecencyDistinct<K>(history: seq<K>)
    ensures Distinct(Recency(history))
  {
    if history == [] {
    } else {
      RecencyDistinct(history[..|history| - 1]);
      TouchDistinct(Recency(history[..|history| - 1]), history[|history| - 1]);
    }
  }

  /** After any sequence of lookups the cache holds the `n` most recently used keys in order. */
  lemma {:induction false} CacheIsMostRecent<K>(history: seq<K>, n: nat)
    ensures CacheKeys(history, n) == Last(Recency(history), n)
  {
    if history == [] {
    } else {
      var before := history[..|history| - 1];
      CacheIsMostRecent(before, n);
      RecencyDistinct(before);
      LastOfTouch(Recency(before), history[|history| - 1], n);
    }
  }

  // ---------------------------------------------------------------- what recency means

  /** The position of the last lookup of `k`. */
  function LastUse<K(==)>(history: seq<K>, k: K): (i: nat)
    requires k in history
    ensures i < |history| && history[i] == k && k !in history[i + 1..]
  {
    if history[|history| - 1] == k then |history| - 1 else LastUse(history[..|history| - 1], k)
  }

  /** The keys of `r` are in the order of their last lookup. */
  predicate OrderedByUse<K(==)>(history: seq<K>, r: seq<K>) {
    && (forall k <- r :: k in history)
    && forall i, j | 0 <= i < j < |r| :: LastUse(history, r[i]) < LastUse(history, r[j])
  }

  lemma UseAfter<K>(before: seq<K>, k: K, x: K)
    requires x in before || x == k
    ensures x in before + [k]
    ensures LastUse(before + [k], x) == if x == k then |before| else LastUse(before, x)
  {
    var history := before + [k];
    assert history[|before|] == k && history[..|before|] == before;
    if x in before { assert history[LastUse(before, x)] == x; }
  }

  lemma OrderAfterTouch<K>(before: seq<K>, r: seq<K>, k: K)
    requires Distinct(r) && OrderedByUse(before, r)
    ensures OrderedByUse(before + [k], Touch(r, k))
  {
    var touched := Touch(r, k);
    TouchMembers(r, k);
    forall x | x in touched ensures x in before + [k] { UseAfter(before, k, x); }
    forall i, j | 0 <= i < j < |touched|
      ensures LastUse(before + [k], touched[i]) < LastUse(before + [k], touched[j])
    {
      TouchKeepsOrder(r, k, i, j);
      UseAfter(before, k, touched[i]);
      UseAfter(before, k, touched[j]);
    }
  }

  /** Recency lists exactly the keys that were looked up, ordered by their last lookup. */
  lemma {:induction false} RecencyOrder<K>(history: seq<K>)
    ensures OrderedByUse(history, Recency(history))
    ensures forall k <- history :: k in Recency(history)
  {
    if history == [] {
    } else {
      var before, k := history[..|history| - 1], history[|history| - 1];
      var r := Recency(before);
      assert history == before + [k] && Recency(history) == Touch(r, k);
      RecencyOrder(before);
      assert OrderedByUse(history, Touch(r, k)) by {
        RecencyDistinct(before);
        OrderAfterTouch(before, r, k);
      }
      forall x | x in history ensures x in Touch(r, k) {
        assert x in before || x == k;
        TouchMembers(r, k);
        assert Touch(r, k)[|Touch(r, k)| - 1] == k;
      }
    }
  }

  /** The keys in front of the touched one come from the old order. */
  lemma TouchKeepsOrder<K>(r: seq<K>, k: K, i: nat, j: nat)
    requires Distinct(r) && i < j < |Touch(r, k)|
    ensures Touch(r, k)[i] != k
    ensures j < |Touch(r, k)| - 1 ==>
              && Touch(r, k)[j] != k
              && exists a, b :: 0 <= a < b < |r| && r[a] == Touch(r, k)[i] && r[b] == Touch(r, k)[j]
    ensures j == |Touch(r, k)| - 1 ==> Touch(r, k)[j] == k && exists a :: 0 <= a < |r| && r[a] == Touch(r, k)[i]
  {
    TouchAt(r, k);
    var a, b := Origin(r, k, i), Origin(r, k, j);
    assert r[a] == Touch(r, k)[i] && a < |r|;
    if j < |Touch(r, k)| - 1 { assert r[b] == Touch(r, k)[j] && a < b; }
  }

  function SetOf<K(==)>(ks: seq<K>): set<K> {
    set x | x in ks
  }

  /** The keys looked up since the last lookup of `k`. */
  function UsedSince<K(==)>(history: seq<K>, k: K): set<K>
    requires k in history
  {
    SetOf(history[LastUse(history, k) + 1..])
  }

  lemma {:induction false} DistinctSize<K>(ks: seq<K>)
    requires Distinct(ks)
    ensures |SetOf(ks)| == |ks|
  {
    if ks == [] {
      assert SetOf(ks) == {};
    } else {
      assert ks == [ks[0]] + ks[1..];
      DistinctSize(ks[1..]);
      assert SetOf(ks) == {ks[0]} + SetOf(ks[1..]);
    }
  }

  lemma UsedLater<K>(history: seq<K>, k: K, x: K)
    requires k in history && x in history
    ensures x in UsedSince(history, k) <==> LastUse(history, x) > LastUse(history, k)
  {
    var i, j := LastUse(history, k), LastUse(history, x);
    if j > i {
      assert history[i + 1..][j - i - 1] == x;
    }
  }

  /** In a list ordered by last use, the keys behind `k` are the ones used later. */
  lemma BehindIsLater<K>(history: seq<K>, r: seq<K>, k: K, x: K)
    requires Distinct(r) && OrderedByUse(history, r) && k in r && x in r
    ensures x in r[IndexOf(r, k) + 1..] <==> LastUse(history, x) > LastUse(history, k)
  {
    var i, j := IndexOf(r, k), IndexOf(r, x);
    assert i < j ==> r[i + 1..][j - i - 1] == x;
    assert j < i ==> LastUse(history, r[j]) < LastUse(history, r[i]);
  }

  /** `r` lists the keys of the history once each, in the order of their last lookup. */
  predicate Lists<K(==)>(history: seq<K>, r: seq<K>) {
    Distinct(r) && OrderedByUse(history, r) && forall y <- history :: y in r
  }

  lemma RecencyLists<K>(history: seq<K>)
    ensures Lists(history, Recency(history))
  {
    RecencyOrder(history);
    RecencyDistinct(history);
  }

  lemma LaterKey<K>(history: seq<K>, r: seq<K>, k: K, x: K)
    requires Lists(history, r) && k in history
    ensures x in UsedSince(history, k) <==> x in r[IndexOf(r, k) + 1..]
  {
    if x in history {
      UsedLater(history, k, x);
      BehindIsLater(history, r, k, x);
    } else {
      assert x !in r;
    }
  }

  lemma SameLaterKeys<K>(history: seq<K>, r: seq<K>, k: K)
    requires Lists(history, r) && k in history
    ensures UsedSince(history, k) == SetOf(r[IndexOf(r, k) + 1..])
  {
    var behind := SetOf(r[IndexOf(r, k) + 1..]);
    forall x | x in UsedSince(history, k) ensures x in behind { LaterKey(history, r, k, x); }
    forall x | x in behind ensures x in UsedSince(history, k) { LaterKey(history, r, k, x); }
  }

  lemma SizeBehind<K>(r: seq<K>, k: K)
    requires Distinct(r) && k in r
    ensures |SetOf(r[IndexOf(r, k) + 1..])| == |r| - 1 - IndexOf(r, k)
  {
    DistinctSize(r[IndexOf(r, k) + 1..]);
  }

  /** As many keys were used since `k` as stand behind it in recency order. */
  lemma UsedSinceBehind<K>(history: seq<K>, r: seq<K>, k: K)
    requires Lists(history, r) && k in history
    ensures |UsedSince(history, k)| == |r| - 1 - IndexOf(r, k)
  {
    SameLaterKeys(history, r, k);
    SizeBehind(r, k);
  }

  lemma InLast<K>(r: seq<K>, k: K, n: nat)
    requires Distinct(r) && k in r
    ensures k in Last(r, n) <==> |r| - 1 - IndexOf(r, k) < n
  {
    var i := IndexOf(r, k);
    if |r| > n {
      if i >= |r| - n { assert Last(r, n)[i - (|r| - n)] == k; }
      if k in Last(r, n) { assert r[|r| - n + IndexOf(Last(r, n), k)] == k; }
    }
  }

  /** A key is cached exactly when fewer than `n` other keys were looked up since its last use. */
  lemma CachedIffRecentEnough<K>(history: seq<K>, n: nat, k: K)
    ensures k in CacheKeys(history, n) <==> k in history && |UsedSince(history, k)| < n
  {
    CacheIsMostRecent(history, n);
    RecencyLists(history);
    LastRecentEnough(history, Recency(history), n, k);
  }

  lemma LastRecentEnough<K>(history: seq<K>, r: seq<K>, n: nat, k: K)
    requires Lists(history, r)
    ensures k in Last(r, n) <==> k in history && |UsedSince(history, k)| < n
  {
    if k in history {
      UsedSinceBehind(history, r, k);
      InLast(r, k, n);
    } else {
      assert k !in r;
    }
  }

  /** A hit of a smaller cache is a hit of a larger one on the same sequence of lookups. */
  lemma LargerCacheHitsMore<K>(history: seq<K>, n: nat, m: nat, k: K)
    requires n <= m && k in CacheKeys(history, n)
    ensures k in CacheKeys(history, m)
  {
    CachedIffRecentEnough(history, n, k);
    CachedIffRecentEnough(history, m, k);
  }

  // ---------------------------------------------------------------- entries with values

  function Get<K(==), V>(es: seq<(K, V)>, k: K): (v: V)
    requires k in Keys(es)
    ensures (k, v) in es
  {
    es[IndexOf(Keys(es), k)].1
  }

  /** `d[k] = v; d.move_to_end(k)` */
  function PutLast<K(==), V>(es: seq<(K, V)>, k: K, v: V): seq<(K, V)> {
    (if k in Keys(es) then var i := IndexOf(Keys(es), k); es[..i] + es[i + 1..] else es) + [(k, v)]
  }

  /** `d[k] = v`: a new key goes to the end, a present one keeps its place. */
  function Put<K(==), V>(es: seq<(K, V)>, k: K, v: V): seq<(K, V)> {
    if k in Keys(es) then es[IndexOf(Keys(es), k) := (k, v)] else es + [(k, v)]
  }

  lemma KeysOfSlice<K, V>(es: seq<(K, V)>, i: nat, j: nat)
    requires i <= j <= |es|
    ensures Keys(es[i..j]) == Keys(es)[i..j]
  {
  }

  lemma KeysOfConcat<K, V>(a: seq<(K, V)>, b: seq<(K, V)>)
    ensures Keys(a + b) == Keys(a) + Keys(b)
  {
  }

  lemma PutLastKeys<K, V>(es: seq<(K, V)>, k: K, v: V)
    ensures Keys(PutLast(es, k, v)) == Touch(Keys(es), k)
  {
    assert Keys([(k, v)]) == [k];
    if k in Keys(es) {
      var i := IndexOf(Keys(es), k);
      KeysOfSlice(es, 0, i);
      KeysOfSlice(es, i + 1, |es|);
      assert es[i + 1..|es|] == es[i + 1..] && es[0..i] == es[..i];
      assert Keys(es)[0..i] == Keys(es)[..i] && Keys(es)[i + 1..|es|] == Keys(es)[i + 1..];
      KeysOfConcat(es[..i], es[i + 1..]);
      KeysOfConcat(es[..i] + es[i + 1..], [(k, v)]);
    } else {
      KeysOfConcat(es, [(k, v)]);
    }
  }

  lemma LastKeys<K, V>(es: seq<(K, V)>, n: nat)
    ensures Keys(Last(es, n)) == Last(Keys(es), n)
  {
    if |es| > n { KeysOfSlice(es, |es| - n, |es|); }
  }

  lemma PutLastContents<K, V>(es: seq<(K, V)>, k: K, v: V, x: (K, V))
    ensures x in PutLast(es, k, v) ==> x in es || x == (k, v)
    ensures (k, v) in PutLast(es, k, v)
  {
  }
}
