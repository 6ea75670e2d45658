/**
 Lists used as tables: the upsert helpers and `Vec::retain` of
 crates/zephyrvox-realtime/src/state/projection.rs, with the lookups that give
 them meaning.
 */
module KeyedList {
  import opened Common

  /** The first item with key `k`. */
  function Find<T, K(==)>(items: seq<T>, key: T -> K, k: K): Option<T> {
    if |items| == 0 then None
    else if key(items[0]) == k then Some(items[0])
    else Find(items[1..], key, k)
  }

  ghost predicate Unique<T, K>(items: seq<T>, key: T -> K) {
    forall i, j :: 0 <= i < j < |items| ==> key(items[i]) != key(items[j])
  }

  /** Replaces the first item with the same key where it stands, or appends. */
  function Upsert<T, K(==)>(items: seq<T>, item: T, key: T -> K): seq<T> {
    if |items| == 0 then [item]
    else if key(items[0]) == key(item) then [item] + items[1..]
    else [items[0]] + Upsert(items[1..], item, key)
  }

  function Retain<T>(items: seq<T>, keep: T -> bool): seq<T> {
    if |items| == 0 then []
    else if keep(items[0]) then [items[0]] + Retain(items[1..], keep)
    else Retain(items[1..], keep)
  }

  /** `upsert_by_id` and `upsert_by_key`: one search, then replace or push. */
  method UpsertByKey<T, K(==)>(items: seq<T>, item: T, key: T -> K) returns (updated: seq<T>)
    ensures updated == Upsert(items, item, key)
  {
    var i := 0;
    while i < |items|
      invariant 0 <= i <= |items|
      invariant Upsert(items, item, key) == items[..i] + Upsert(items[i..], item, key)
    {
      if key(items[i]) == key(item) {
        assert items[i..][1..] == items[i + 1..];
        assert items[i := item] == items[..i] + ([item] + items[i + 1..]);
        return items[i := item];
      }
      assert items[i..][1..] == items[i + 1..];
      assert items[..i + 1] == items[..i] + [items[i]];
      i := i + 1;
    }
    assert items[..i] == items;
    return items + [item];
  }

  lemma {:induction false} FindNone<T, K>(items: seq<T>, key: T -> K, k: K)
    ensures Find(items, key, k) == None <==> forall i :: 0 <= i < |items| ==> key(items[i]) != k
  {
    if |items| > 0 {
      FindNone(items[1..], key, k);
      if Find(items, key, k) == None {
        forall i | 0 <= i < |items| ensures key(items[i]) != k {
          if i > 0 { assert items[i] == items[1..][i - 1]; }
        }
      } else if key(items[0]) != k {
        var i :| 0 <= i < |items[1..]| && key(items[1..][i]) == k;
        assert key(items[i + 1]) == k;
      }
    }
  }

  /** After an upsert the written key holds the new item and every other key is untouched. */
  lemma {:induction false} FindUpsert<T, K>(items: seq<T>, item: T, key: T -> K, k: K)
    ensures Find(Upsert(items, item, key), key, k)
         == if k == key(item) then Some(item) else Find(items, key, k)
  {
    if |items| > 0 && key(items[0]) != key(item) {
      FindUpsert(items[1..], item, key, k);
    }
  }

  lemma {:induction false} UniqueUpsert<T, K>(items: seq<T>, item: T, key: T -> K)
    requires Unique(items, key)
    ensures Unique(Upsert(items, item, key), key)
  {
    if |items| > 0 {
      var rest := items[1..];
      assert Unique(rest, key);
      if key(items[0]) != key(item) {
        UniqueUpsert(rest, item, key);
        FindUpsert(rest, item, key, key(items[0]));
        FindNone(rest, key, key(items[0]));
        FindNone(Upsert(rest, item, key), key, key(items[0]));
      }
    }
  }

  /** With unique keys, retaining keeps a key exactly when its item passes the test. */
  lemma {:induction false} FindRetain<T, K>(items: seq<T>, keep: T -> bool, key: T -> K, k: K)
    requires Unique(items, key)
    ensures Find(Retain(items, keep), key, k)
         == var found := Find(items, key, k);
            if found.Some? && keep(found.value) then found else None
  {
    if |items| > 0 {
      var rest := items[1..];
      assert Unique(rest, key);
      FindRetain(rest, keep, key, k);
      if key(items[0]) == k {
        FindNone(rest, key, k);
      }
    }
  }

  lemma {:induction false} UniqueRetain<T, K>(items: seq<T>, keep: T -> bool, key: T -> K)
    requires Unique(items, key)
    ensures Unique(Retain(items, keep), key)
  {
    if |items| > 0 {
      var rest := items[1..];
      assert Unique(rest, key);
      UniqueRetain(rest, keep, key);
      FindRetain(rest, keep, key, key(items[0]));
      FindNone(rest, key, key(items[0]));
      FindNone(Retain(rest, keep), key, key(items[0]));
    }
  }

  function Keys<T, K>(items: seq<T>, key: T -> K): (keys: seq<K>)
    ensures |keys| == |items|
  {
    if |items| == 0 then [] else [key(items[0])] + Keys(items[1..], key)
  }

  /** A known key keeps its place in the list, a new one comes last. */
  lemma {:induction false} UpsertKeepsOrder<T, K>(items: seq<T>, item: T, key: T -> K)
    ensures Keys(Upsert(items, item, key), key)
         == if Find(items, key, key(item)).Some? then Keys(items, key)
            else Keys(items, key) + [key(item)]
  {
    if |items| > 0 {
      var rest := items[1..];
      if key(items[0]) == key(item) {
        assert ([item] + rest)[1..] == rest;
      } else {
        UpsertKeepsOrder(rest, item, key);
        assert ([items[0]] + Upsert(rest, item, key))[1..] == Upsert(rest, item, key);
      }
    }
  }

  /** What is retained stays in order. */
  lemma {:induction false} RetainKeepsOrder<T>(a: seq<T>, b: seq<T>, keep: T -> bool)
    ensures Retain(a + b, keep) == Retain(a, keep) + Retain(b, keep)
  {
    if |a| == 0 {
      assert a + b == b;
    } else {
      assert (a + b)[1..] == a[1..] + b;
      RetainKeepsOrder(a[1..], b, keep);
    }
  }
}
