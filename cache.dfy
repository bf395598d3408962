/** The download cache: fetched payloads keyed by `${gifId}_${size}`, kept in
    an insertion-ordered map of at most fifty entries that evicts its oldest
    key first. */
module Cache {
  import opened Gifs

  const Capacity: nat := 50

  /** `${gifId}_${size}`. */
  function CacheKey(gifId: string, size: string): (k: string)
    ensures |k| == |gifId| + 1 + |size|
    ensures k[|gifId|] == '_'
    ensures k[..|gifId|] == gifId && k[|gifId| + 1..] == size
  {
    gifId + "_" + size
  }

  /** Ids without an underscore never share a key: the first underscore of a
      key separates the id from the variant name. */
  lemma CacheKeyInjective(id1: string, size1: string, id2: string, size2: string)
    requires '_' !in id1 && '_' !in id2
    ensures CacheKey(id1, size1) == CacheKey(id2, size2) <==> id1 == id2 && size1 == size2
  {
    var k1, k2 := CacheKey(id1, size1), CacheKey(id2, size2);
    if k1 == k2 {
      if |id1| != |id2| {
        assert false;
      }
      assert id1 == k1[..|id1|] == k2[..|id2|] == id2;
      assert size1 == k1[|id1| + 1..] == k2[|id2| + 1..] == size2;
    }
  }

  /** With underscores in ids two different (id, variant) pairs can meet on
      one key. */
  lemma CacheKeyCollision()
    ensures CacheKey("a_b", "c") == CacheKey("a", "b_c")
  {
  }

  predicate Distinct(s: seq<string>)
  {
    forall i, j :: 0 <= i < j < |s| ==> s[i] != s[j]
  }

  function Elements(s: seq<string>): set<string>
  {
    set k | k in s
  }

  lemma {:induction false} DistinctElementCount(s: seq<string>)
    requires Distinct(s)
    ensures |Elements(s)| == |s|
  {
    if s != [] {
      assert Distinct(s[1..]) by {
        forall i, j | 0 <= i < j < |s[1..]| ensures s[1..][i] != s[1..][j] {
          assert s[1..][i] == s[i + 1] && s[1..][j] == s[j + 1];
        }
      }
      DistinctElementCount(s[1..]);
      assert Elements(s) == {s[0]} + Elements(s[1..]);
      assert s[0] !in Elements(s[1..]) by {
        forall i | 0 <= i < |s[1..]| ensures s[1..][i] != s[0] {
          assert s[1..][i] == s[i + 1];
        }
      }
    }
  }

  lemma KeyCount(m: map<string, Blob>, s: seq<string>)
    requires Distinct(s) && m.Keys == Elements(s)
    ensures |m| == |s|
  {
    DistinctElementCount(s);
    assert |m| == |m.Keys|;
  }

  /** The key order after `set(key, ...)` and the size check: a new key goes
      to the end, a present key keeps its place, and a 51st key pushes out
      the first. */
  function NextOrder(order: seq<string>, key: string): (r: seq<string>)
    ensures |order| <= Capacity ==> key in r && |r| <= Capacity
    ensures key !in order ==> |r| > 0 && r[|r| - 1] == key
    ensures forall k :: k in r ==> k in order || k == key
  {
    var grown := if key in order then order else order + [key];
    if |grown| > Capacity then
      assert key !in order ==> grown[1..][|grown| - 2] == key;
      grown[1..]
    else grown
  }

  /** The keys the insertion deletes. */
  function Evicted(order: seq<string>, key: string): (r: set<string>)
    ensures |r| <= 1
    ensures forall k :: k in r ==> k in order && k != key
    ensures key in order || |order| < Capacity ==> r == {}
  {
    if key !in order && |order| >= Capacity && |order| > 0 then {order[0]} else {}
  }

  /** FIFO insertion keeps the bound and the distinctness of the order; only
      the earliest-inserted key is ever removed, and only to make room for a
      new key. */
  lemma FifoInsert(order: seq<string>, key: string)
    requires Distinct(order) && |order| <= Capacity
    ensures var next := NextOrder(order, key);
            && Distinct(next)
            && |next| <= Capacity
            && key in next
            && (key in order ==> next == order)
            && (key !in order && |order| < Capacity ==> next == order + [key])
            && (key !in order && |order| == Capacity ==> next == order[1..] + [key])
            && Elements(next) == Elements(order) + {key} - Evicted(order, key)
  {
    var next := NextOrder(order, key);
    if key !in order {
      var grown := order + [key];
      assert Distinct(grown);
      if |grown| > Capacity {
        assert next == order[1..] + [key];
        assert order[0] !in next;
        assert Elements(next) == Elements(order) + {key} - {order[0]};
      } else {
        assert Elements(next) == Elements(order) + {key};
      }
    }
  }

  /** The cache invariant: at most fifty keys, each once, the key order and
      the map hold the same keys, and no payload is empty. */
  predicate WellFormed(order: seq<string>, blobs: map<string, Blob>)
  {
    && |order| <= Capacity
    && Distinct(order)
    && blobs.Keys == Elements(order)
    && (forall k :: k in blobs ==> blobs[k].size > 0)
  }

  /** Inserting a non-empty payload keeps the cache invariant. */
  lemma InsertKeepsWellFormed(order: seq<string>, blobs: map<string, Blob>, key: string, blob: Blob)
    requires WellFormed(order, blobs) && blob.size > 0
    ensures WellFormed(NextOrder(order, key), blobs[key := blob] - Evicted(order, key))
  {
    FifoInsert(order, key);
  }

  /** Storing under a key already present keeps the key order and evicts
      nothing. */
  lemma InsertPresent(order: seq<string>, blobs: map<string, Blob>, key: string, blob: Blob)
    requires Distinct(order) && |order| <= Capacity && blobs.Keys == Elements(order)
    requires key in order
    ensures |blobs[key := blob]| == |order|
    ensures order == NextOrder(order, key) && Evicted(order, key) == {}
  {
    KeyCount(blobs[key := blob], order);
  }

  /** Storing under a new key appends it to the key order. */
  lemma InsertNew(order: seq<string>, blobs: map<string, Blob>, key: string, blob: Blob)
    requires Distinct(order) && |order| <= Capacity && blobs.Keys == Elements(order)
    requires key !in order
    ensures |blobs[key := blob]| == |order| + 1
    ensures |order| < Capacity ==> order + [key] == NextOrder(order, key) && Evicted(order, key) == {}
    ensures |order| == Capacity ==>
              (order + [key])[1..] == NextOrder(order, key) && Evicted(order, key) == {(order + [key])[0]}
  {
    var grown := order + [key];
    assert Distinct(grown);
    assert blobs[key := blob].Keys == Elements(grown);
    KeyCount(blobs[key := blob], grown);
  }

  class DownloadCache {
    /** The keys in insertion order (the iteration order of a JS Map). */
    var order: seq<string>
    var blobs: map<string, Blob>

    ghost predicate Valid()
      reads this
    {
      WellFormed(order, blobs)
    }

    constructor ()
      ensures Valid() && order == [] && blobs == map[]
    {
      order := [];
      blobs := map[];
    }

    /** `downloadCache.has(key)`. */
    function Has(key: string): (r: bool)
      reads this
      requires Valid()
      ensures r <==> key in order
    {
      key in blobs
    }

    /** Stores a non-empty payload: `set`, then `delete` of the first key when
      the map has grown past fifty entries. */
    method Put(key: string, blob: Blob)
      requires Valid()
      requires blob.size > 0
      modifies this
      ensures Valid()
      ensures order == NextOrder(old(order), key)
      ensures blobs == old(blobs)[key := blob] - Evicted(old(order), key)
    {
      ghost var next, gone := NextOrder(order, key), Evicted(order, key);
      InsertKeepsWellFormed(order, blobs, key, blob);
      if key in order {
        InsertPresent(order, blobs, key, blob);
      } else {
        InsertNew(order, blobs, key, blob);
      }
      // the source copies the Map, updates the copy, then stores the copy
      var newOrder, newBlobs := order, blobs[key := blob];
      if key !in newOrder {
        newOrder := newOrder + [key];
      }
      if |newBlobs| > Capacity {
        var first := newOrder[0];
        newOrder := newOrder[1..];
        newBlobs := newBlobs - {first};
      } else {
        assert newBlobs - {} == newBlobs;
      }
      assert newOrder == next;
      assert newBlobs == old(blobs)[key := blob] - gone;
      order, blobs := newOrder, newBlobs;
    }
  }
}
