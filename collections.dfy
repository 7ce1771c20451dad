/** The document-store queries the routes issue, over a collection held as
    a sequence in insertion (natural) order: `findOne` by a field, `find`
    by a field, `deleteMany` by a field, and `sort` on a timestamp. */
module Collections {
  import opened Common

  /** No two elements share a key (a unique index). */
  ghost predicate Distinct<T, K>(s: seq<T>, key: T -> K)
  {
    forall i, j :: 0 <= i < j < |s| ==> key(s[i]) != key(s[j])
  }

  /** `findOne({field: k})`: the position of the first element whose key is k. */
  function IndexOf<T, K(==)>(s: seq<T>, key: T -> K, k: K): (r: Option<nat>)
    ensures r.Some? ==> r.value < |s| && key(s[r.value]) == k
    ensures r.Some? ==> forall j :: 0 <= j < r.value ==> key(s[j]) != k
    ensures r.None? <==> forall j :: 0 <= j < |s| ==> key(s[j]) != k
  {
    if |s| == 0 then None
    else if key(s[0]) == k then Some(0)
    else match IndexOf(s[1..], key, k) {
      case None => None
      case Some(i) => Some(i + 1)
    }
  }

  /** Under a unique index, the element found by key is the only one with it. */
  lemma IndexOfDistinct<T, K>(s: seq<T>, key: T -> K, i: nat)
    requires Distinct(s, key) && i < |s|
    ensures IndexOf(s, key, key(s[i])) == Some(i)
  {
    var r := IndexOf(s, key, key(s[i]));
  }

  /** `find({field: k})`: the elements whose key is k, in store order. */
  function Select<T, K(==)>(s: seq<T>, key: T -> K, k: K): (r: seq<T>)
    ensures |r| <= |s|
    ensures forall i :: 0 <= i < |r| ==> r[i] in s && key(r[i]) == k
    ensures forall i :: 0 <= i < |s| && key(s[i]) == k ==> s[i] in r
  {
    if |s| == 0 then []
    else if key(s[0]) == k then [s[0]] + Select(s[1..], key, k)
    else Select(s[1..], key, k)
  }

  /** `deleteMany({field: k})`: the elements whose key is not k, in store order. */
  function RemoveKey<T, K(==)>(s: seq<T>, key: T -> K, k: K): (r: seq<T>)
    ensures |r| <= |s|
    ensures forall i :: 0 <= i < |r| ==> r[i] in s && key(r[i]) != k
    ensures forall i :: 0 <= i < |s| && key(s[i]) != k ==> s[i] in r
  {
    if |s| == 0 then []
    else if key(s[0]) == k then RemoveKey(s[1..], key, k)
    else [s[0]] + RemoveKey(s[1..], key, k)
  }

  /** `find` and `deleteMany` on the same filter split the collection: every
      element lands in exactly one of the two, as often as it occurs. */
  lemma {:induction false} SelectRemovePartition<T, K>(s: seq<T>, key: T -> K, k: K)
    ensures multiset(Select(s, key, k)) + multiset(RemoveKey(s, key, k)) == multiset(s)
  {
    if |s| > 0 {
      SelectRemovePartition(s[1..], key, k);
      assert s == [s[0]] + s[1..];
    }
  }

  /** Deleting by any filter keeps a unique index unique. */
  lemma {:induction false} RemoveKeyDistinct<T, K, K2>(s: seq<T>, key: T -> K, k: K, key2: T -> K2)
    requires Distinct(s, key2)
    ensures Distinct(RemoveKey(s, key, k), key2)
  {
    if |s| > 0 {
      RemoveKeyDistinct(s[1..], key, k, key2);
      var rest := RemoveKey(s[1..], key, k);
      if key(s[0]) != k {
        var r := [s[0]] + rest;
        forall i, j | 0 <= i < j < |r| ensures key2(r[i]) != key2(r[j]) {
          if i == 0 {
            assert r[j] in s[1..];
            var m :| 0 <= m < |s[1..]| && s[1..][m] == r[j];
            assert s[m + 1] == r[j];
          }
        }
      }
    }
  }

  /** Deleting by a key that no element has changes nothing. */
  lemma {:induction false} RemoveAbsentKey<T, K>(s: seq<T>, key: T -> K, k: K)
    requires forall j :: 0 <= j < |s| ==> key(s[j]) != k
    ensures RemoveKey(s, key, k) == s
  {
    if |s| > 0 {
      RemoveAbsentKey(s[1..], key, k);
      assert s == [s[0]] + s[1..];
    }
  }

  /** Under a unique index, deleting the key of one element removes exactly
      that element. */
  lemma {:induction false} RemoveKeyUnique<T, K>(s: seq<T>, key: T -> K, i: nat)
    requires Distinct(s, key) && i < |s|
    ensures RemoveKey(s, key, key(s[i])) == s[..i] + s[i + 1..]
  {
    var t := s[1..];
    if i == 0 {
      forall j | 0 <= j < |t| ensures key(t[j]) != key(s[0]) {
        assert t[j] == s[j + 1];
      }
      RemoveAbsentKey(t, key, key(s[0]));
    } else {
      assert key(s[0]) != key(s[i]);
      assert Distinct(t, key) by {
        forall a, b | 0 <= a < b < |t| ensures key(t[a]) != key(t[b]) {
          assert t[a] == s[a + 1] && t[b] == s[b + 1];
        }
      }
      assert t[i - 1] == s[i];
      RemoveKeyUnique(t, key, i - 1);
      calc {
        RemoveKey(s, key, key(s[i]));
        [s[0]] + RemoveKey(t, key, key(s[i]));
        [s[0]] + (t[..i - 1] + t[i..]);
        { assert s[..i] == [s[0]] + t[..i - 1]; assert s[i + 1..] == t[i..]; }
        s[..i] + s[i + 1..];
      }
    }
  }

  /** Ordered from the largest key to the smallest (`sort({field: -1})`). */
  ghost predicate SortedDesc<T>(s: seq<T>, key: T -> nat)
  {
    forall i, j :: 0 <= i < j < |s| ==> key(s[i]) >= key(s[j])
  }

  /** Inserts x before the first element whose key is not larger. */
  function Insert<T>(x: T, s: seq<T>, key: T -> nat): (r: seq<T>)
    ensures |r| == |s| + 1
  {
    if |s| == 0 then [x]
    else if key(x) >= key(s[0]) then [x] + s
    else [s[0]] + Insert(x, s[1..], key)
  }

  /** `sort({field: -1})`: a stable insertion sort, largest key first. */
  function SortDesc<T>(s: seq<T>, key: T -> nat): (r: seq<T>)
    ensures |r| == |s|
  {
    if |s| == 0 then [] else Insert(s[0], SortDesc(s[1..], key), key)
  }

  lemma {:induction false} InsertCorrect<T>(x: T, s: seq<T>, key: T -> nat)
    requires SortedDesc(s, key)
    ensures SortedDesc(Insert(x, s, key), key)
    ensures multiset(Insert(x, s, key)) == multiset(s) + multiset{x}
    ensures forall i :: 0 <= i < |Insert(x, s, key)| ==>
      Insert(x, s, key)[i] == x || Insert(x, s, key)[i] in s
  {
    if |s| > 0 && key(x) < key(s[0]) {
      InsertCorrect(x, s[1..], key);
      var tail := Insert(x, s[1..], key);
      assert s == [s[0]] + s[1..];
      forall j | 0 <= j < |tail| ensures key(s[0]) >= key(tail[j]) {
        if tail[j] != x {
          assert tail[j] in s[1..];
          var m :| 0 <= m < |s[1..]| && s[1..][m] == tail[j];
          assert s[m + 1] == tail[j];
        }
      }
    }
  }

  /** Sorting yields a descending permutation of the input. */
  lemma {:induction false} SortDescCorrect<T>(s: seq<T>, key: T -> nat)
    ensures SortedDesc(SortDesc(s, key), key)
    ensures multiset(SortDesc(s, key)) == multiset(s)
  {
    if |s| > 0 {
      SortDescCorrect(s[1..], key);
      InsertCorrect(s[0], SortDesc(s[1..], key), key);
      assert s == [s[0]] + s[1..];
    }
  }

  /** The sorted collection holds exactly the elements of the input. */
  lemma SortDescMembers<T>(s: seq<T>, key: T -> nat)
    ensures forall i :: 0 <= i < |s| ==> s[i] in SortDesc(s, key)
    ensures forall i :: 0 <= i < |s| ==> SortDesc(s, key)[i] in s
  {
    SortDescCorrect(s, key);
    var r := SortDesc(s, key);
    forall i | 0 <= i < |s| ensures s[i] in r && r[i] in s {
      assert s[i] in multiset(s);
      assert r[i] in multiset(r);
    }
  }
}
