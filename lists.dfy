/**
 * Keyed searches over the ordered child lists of the patch: `List.Find`,
 * `FirstOrDefault`, `Remove` and the uniqueness of sibling keys; and the
 * order-keeping collection of optional results that builds the work queue.
 */
module Lists {
  import opened Wrappers

  /** Index of the first element whose key is `k`, or None when there is none. */
  function IndexOfKey<T, K(==)>(s: seq<T>, key: T -> K, k: K): (r: Option<nat>)
    ensures r.Some? ==> r.value < |s| && key(s[r.value]) == k
    ensures r.Some? ==> forall j :: 0 <= j < r.value ==> key(s[j]) != k
    ensures r.None? <==> forall j :: 0 <= j < |s| ==> key(s[j]) != k
  {
    if s == [] then None
    else if key(s[0]) == k then Some(0)
    else match IndexOfKey(s[1..], key, k)
      case None => None
      case Some(i) => Some(i + 1)
  }

  /** Elements appended after the first match do not move it. */
  lemma IndexOfKeyAppendAfter<T, K>(s: seq<T>, t: seq<T>, key: T -> K, k: K)
    requires IndexOfKey(s, key, k).Some?
    ensures IndexOfKey(s + t, key, k) == IndexOfKey(s, key, k)
  {
    var i := IndexOfKey(s, key, k).value;
    assert (s + t)[i] == s[i];
    assert forall j :: 0 <= j < i ==> (s + t)[j] == s[j];
  }

  /** An index holding a match with none before it is the first match. */
  lemma IndexOfKeyAt<T, K>(s: seq<T>, i: nat, key: T -> K, k: K)
    requires i < |s| && key(s[i]) == k
    requires forall j :: 0 <= j < i ==> key(s[j]) != k
    ensures IndexOfKey(s, key, k) == Some(i)
  {
  }

  /** The first element whose key is `k`. */
  function Lookup<T, K(==)>(s: seq<T>, key: T -> K, k: K): (r: Option<T>)
    ensures r.Some? ==> r.value in s && key(r.value) == k
    ensures r.None? <==> forall j :: 0 <= j < |s| ==> key(s[j]) != k
  {
    match IndexOfKey(s, key, k)
    case None => None
    case Some(i) => Some(s[i])
  }

  /** No two elements of `s` share a key. */
  predicate UniqueKeys<T, K(==)>(s: seq<T>, key: T -> K) {
    forall i, j :: 0 <= i < j < |s| ==> key(s[i]) != key(s[j])
  }

  /** How many elements of `s` have key `k`. */
  function CountKey<T, K(==)>(s: seq<T>, key: T -> K, k: K): (n: nat)
    ensures n <= |s|
    ensures n == 0 <==> forall j :: 0 <= j < |s| ==> key(s[j]) != k
  {
    if s == [] then 0
    else (if key(s[0]) == k then 1 else 0) + CountKey(s[1..], key, k)
  }

  /** The elements of `s` whose key is not `k`, in their original order. */
  function DropKey<T, K(==)>(s: seq<T>, key: T -> K, k: K): (r: seq<T>)
    ensures |r| == |s| - CountKey(s, key, k)
    ensures forall j :: 0 <= j < |r| ==> r[j] in s && key(r[j]) != k
  {
    if s == [] then []
    else (if key(s[0]) == k then [] else [s[0]]) + DropKey(s[1..], key, k)
  }

  /** `s` without its element at index `i`. */
  function RemoveAt<T>(s: seq<T>, i: nat): (r: seq<T>)
    requires i < |s|
    ensures |r| == |s| - 1
    ensures forall j :: 0 <= j < i ==> r[j] == s[j]
    ensures forall j :: i <= j < |r| ==> r[j] == s[j + 1]
  {
    s[..i] + s[i + 1..]
  }

  lemma {:induction false} CountKeyAppend<T, K>(s: seq<T>, x: T, key: T -> K, k: K)
    ensures CountKey(s + [x], key, k) == CountKey(s, key, k) + (if key(x) == k then 1 else 0)
  {
    if s != [] {
      assert (s + [x])[1..] == s[1..] + [x];
      CountKeyAppend(s[1..], x, key, k);
    }
  }

  lemma {:induction false} DropKeyAppend<T, K>(s: seq<T>, x: T, key: T -> K, k: K)
    ensures DropKey(s + [x], key, k) == DropKey(s, key, k) + (if key(x) == k then [] else [x])
  {
    if s == [] {
      assert [x][1..] == [];
    } else {
      assert (s + [x])[1..] == s[1..] + [x];
      DropKeyAppend(s[1..], x, key, k);
    }
  }

  lemma {:induction false} CountKeyRemoveAt<T, K>(s: seq<T>, i: nat, key: T -> K, k: K)
    requires i < |s|
    ensures CountKey(RemoveAt(s, i), key, k) + (if key(s[i]) == k then 1 else 0) == CountKey(s, key, k)
  {
    if i > 0 {
      assert RemoveAt(s, i)[1..] == RemoveAt(s[1..], i - 1);
      CountKeyRemoveAt(s[1..], i - 1, key, k);
    } else {
      assert RemoveAt(s, i) == s[1..];
    }
  }

  lemma {:induction false} DropKeyRemoveAt<T, K>(s: seq<T>, i: nat, key: T -> K, k: K)
    requires i < |s| && key(s[i]) == k
    ensures DropKey(RemoveAt(s, i), key, k) == DropKey(s, key, k)
  {
    if i > 0 {
      assert RemoveAt(s, i)[1..] == RemoveAt(s[1..], i - 1);
      DropKeyRemoveAt(s[1..], i - 1, key, k);
    } else {
      assert RemoveAt(s, i) == s[1..];
    }
  }

  /** With unique keys a key occurs at most once. */
  lemma {:induction false} UniqueKeysCount<T, K>(s: seq<T>, key: T -> K, k: K)
    requires UniqueKeys(s, key)
    ensures CountKey(s, key, k) <= 1
  {
    if s != [] {
      UniqueKeysCount(s[1..], key, k);
      if key(s[0]) == k {
        forall j | 0 <= j < |s[1..]| ensures key(s[1..][j]) != k {
          assert s[1..][j] == s[j + 1];
        }
      }
    }
  }

  /** Removing an element whose key occurs once leaves no element with that key. */
  lemma RemoveOnlyOccurrence<T, K>(s: seq<T>, i: nat, key: T -> K, k: K)
    requires i < |s| && key(s[i]) == k && CountKey(s, key, k) <= 1
    ensures forall j :: 0 <= j < |RemoveAt(s, i)| ==> key(RemoveAt(s, i)[j]) != k
  {
    CountKeyRemoveAt(s, i, key, k);
  }

  /** Searching for a key other than the removed element's finds the same element. */
  lemma LookupRemoveAt<T, K>(s: seq<T>, i: nat, key: T -> K, k: K)
    requires i < |s| && key(s[i]) != k
    ensures Lookup(RemoveAt(s, i), key, k) == Lookup(s, key, k)
  {
    var r := RemoveAt(s, i);
    match IndexOfKey(s, key, k)
    case None =>
    case Some(m) =>
      if m < i {
        assert IndexOfKey(r, key, k) == Some(m);
      } else {
        assert key(r[m - 1]) == k;
        assert IndexOfKey(r, key, k) == Some(m - 1);
      }
  }
  /** Replacing an element by one with the same key: only that key's search can see the change. */
  lemma LookupUpdate<T, K>(s: seq<T>, i: nat, x: T, key: T -> K, k: K)
    requires i < |s| && key(x) == key(s[i])
    ensures IndexOfKey(s[i := x], key, k) == IndexOfKey(s, key, k)
    ensures Lookup(s[i := x], key, k) ==
      if IndexOfKey(s, key, k) == Some(i) then Some(x) else Lookup(s, key, k)
  {
    var t := s[i := x];
    assert forall j :: 0 <= j < |s| ==> key(t[j]) == key(s[j]);
  }

  /** Appending an element is only seen by searches that found nothing before. */
  lemma LookupAppend<T, K>(s: seq<T>, x: T, key: T -> K, k: K)
    ensures Lookup(s + [x], key, k) ==
      if IndexOfKey(s, key, k).Some? then Lookup(s, key, k)
      else if key(x) == k then Some(x) else None
  {
    var t := s + [x];
    assert forall j :: 0 <= j < |s| ==> t[j] == s[j];
    match IndexOfKey(s, key, k)
    case Some(i) =>
      assert IndexOfKey(t, key, k) == Some(i);
    case None =>
      if key(x) == k {
        assert key(t[|s|]) == k;
        assert IndexOfKey(t, key, k) == Some(|s|);
      }
  }

  function OptionToSeq<T>(o: Option<T>): seq<T> {
    match o
    case None => []
    case Some(v) => [v]
  }

  /** The results `f` yields over `s`, in the order of `s`, skipping the elements it maps to None. */
  function FilterMap<A, B>(s: seq<A>, f: A -> Option<B>): (r: seq<B>)
    ensures |r| <= |s|
  {
    if s == [] then []
    else FilterMap(s[..|s| - 1], f) + OptionToSeq(f(s[|s| - 1]))
  }

  /** Read from the front: the first element's result comes before all the others. */
  lemma {:induction false} FilterMapCons<A, B>(x: A, rest: seq<A>, f: A -> Option<B>)
    ensures FilterMap([x] + rest, f) == OptionToSeq(f(x)) + FilterMap(rest, f)
    decreases |rest|
  {
    var all := [x] + rest;
    if rest == [] {
      assert all[..0] == [];
    } else {
      var init := rest[..|rest| - 1];
      assert all[..|all| - 1] == [x] + init;
      assert all[|all| - 1] == rest[|rest| - 1];
      FilterMapCons(x, init, f);
    }
  }

  /** Every collected result is the result of some element. */
  lemma {:induction false} FilterMapSound<A, B>(s: seq<A>, f: A -> Option<B>, k: nat)
    requires k < |FilterMap(s, f)|
    ensures exists n :: 0 <= n < |s| && f(s[n]) == Some(FilterMap(s, f)[k])
  {
    var init := s[..|s| - 1];
    if k < |FilterMap(init, f)| {
      FilterMapSound(init, f, k);
      var n :| 0 <= n < |init| && f(init[n]) == Some(FilterMap(init, f)[k]);
      assert s[n] == init[n];
    } else {
      assert f(s[|s| - 1]) == Some(FilterMap(s, f)[k]);
    }
  }

  /** Every element with a result has it collected. */
  lemma {:induction false} FilterMapComplete<A, B>(s: seq<A>, f: A -> Option<B>, n: nat)
    requires n < |s| && f(s[n]).Some?
    ensures f(s[n]).value in FilterMap(s, f)
  {
    var init := s[..|s| - 1];
    if n < |init| {
      assert s[n] == init[n];
      FilterMapComplete(init, f, n);
    }
  }
}
