/**
 * The store's read-only prefix scan: `Seek(prefix)` positions the iterator on
 * the first key not below the prefix, and `ValidForPrefix(prefix)` keeps it
 * going while the current key still carries the prefix. Keys are compared
 * byte-wise (lexicographically), and the store hands its entries out in
 * ascending key order.
 */
module KeyScan {

  type byte = x: int | 0 <= x < 256
  type Bytes = seq<byte>

  datatype Entry = Entry(key: Bytes, value: Bytes)

  /** Byte-wise lexicographic order on keys: `a` sorts no later than `b`. */
  predicate LexLe(a: Bytes, b: Bytes)
    decreases |a|
  {
    |a| == 0 || (|b| > 0 && (a[0] < b[0] || (a[0] == b[0] && LexLe(a[1..], b[1..]))))
  }

  predicate HasPrefix(k: Bytes, p: Bytes) {
    |p| <= |k| && k[..|p|] == p
  }

  /** The store's iteration order: ascending keys. */
  predicate Sorted(store: seq<Entry>) {
    forall i, j | 0 <= i < j < |store| :: LexLe(store[i].key, store[j].key)
  }

  /** Where `Seek(p)` lands when started at position `i`: the first key at or after `i` that is not below `p`. */
  function SeekFrom(store: seq<Entry>, p: Bytes, i: nat): (r: nat)
    requires i <= |store|
    ensures i <= r <= |store|
    ensures forall j | i <= j < r :: !LexLe(p, store[j].key)
    ensures r < |store| ==> LexLe(p, store[r].key)
    decreases |store| - i
  {
    if i == |store| || LexLe(p, store[i].key) then i else SeekFrom(store, p, i + 1)
  }

  function Seek(store: seq<Entry>, p: Bytes): (r: nat)
    ensures r <= |store|
  {
    SeekFrom(store, p, 0)
  }

  /** The position at which `ValidForPrefix(p)` first fails, starting from `i`. */
  function PrefixEnd(store: seq<Entry>, p: Bytes, i: nat): (r: nat)
    requires i <= |store|
    ensures i <= r <= |store|
    ensures forall j | i <= j < r :: HasPrefix(store[j].key, p)
    ensures r < |store| ==> !HasPrefix(store[r].key, p)
    decreases |store| - i
  {
    if i == |store| || !HasPrefix(store[i].key, p) then i else PrefixEnd(store, p, i + 1)
  }

  /** The entries the scan loop visits, in the order it visits them. */
  function Scanned(store: seq<Entry>, p: Bytes): seq<Entry> {
    store[Seek(store, p)..PrefixEnd(store, p, Seek(store, p))]
  }

  /** Reference definition: the store's entries whose key carries the prefix, in store order. */
  function WithPrefix(store: seq<Entry>, p: Bytes): seq<Entry>
    decreases |store|
  {
    if store == [] then []
    else (if HasPrefix(store[0].key, p) then [store[0]] else []) + WithPrefix(store[1..], p)
  }

  lemma {:induction false} WithPrefixAppend(a: seq<Entry>, b: seq<Entry>, p: Bytes)
    ensures WithPrefix(a + b, p) == WithPrefix(a, p) + WithPrefix(b, p)
    decreases |a|
  {
    if a != [] {
      var head := if HasPrefix(a[0].key, p) then [a[0]] else [];
      assert (a + b)[0] == a[0];
      assert (a + b)[1..] == a[1..] + b;
      WithPrefixAppend(a[1..], b, p);
      calc {
        WithPrefix(a + b, p);
        head + WithPrefix(a[1..] + b, p);
        head + (WithPrefix(a[1..], p) + WithPrefix(b, p));
        (head + WithPrefix(a[1..], p)) + WithPrefix(b, p);
      }
    } else {
      assert a + b == b;
    }
  }

  lemma {:induction false} WithPrefixNone(s: seq<Entry>, p: Bytes)
    requires forall j | 0 <= j < |s| :: !HasPrefix(s[j].key, p)
    ensures WithPrefix(s, p) == []
    decreases |s|
  {
    if s != [] {
      WithPrefixNone(s[1..], p);
    }
  }

  lemma {:induction false} WithPrefixAll(s: seq<Entry>, p: Bytes)
    requires forall j | 0 <= j < |s| :: HasPrefix(s[j].key, p)
    ensures WithPrefix(s, p) == s
    decreases |s|
  {
    if s != [] {
      WithPrefixAll(s[1..], p);
    }
  }

  /** A key that carries a prefix sorts no earlier than the prefix itself. */
  lemma {:induction false} PrefixedNotBelow(k: Bytes, p: Bytes)
    requires HasPrefix(k, p)
    ensures LexLe(p, k)
    decreases |p|
  {
    if |p| > 0 {
      assert k[1..][..|p| - 1] == k[..|p|][1..];
      PrefixedNotBelow(k[1..], p[1..]);
    }
  }

  /**
   * Once the keys have climbed past the prefix block (a key not below `p` that
   * lacks the prefix), no later key can carry the prefix again.
   */
  lemma {:induction false} PastPrefixBlock(p: Bytes, a: Bytes, b: Bytes)
    requires LexLe(p, a) && !HasPrefix(a, p) && LexLe(a, b)
    ensures !HasPrefix(b, p)
    decreases |p|
  {
    assert |p| > 0;
    if HasPrefix(b, p) {
      assert b[0] == p[0];
      if p[0] == a[0] {
        assert b[1..][..|p| - 1] == b[..|p|][1..];
        PastPrefixBlock(p[1..], a[1..], b[1..]);
      }
    }
  }

  /** No entry before the seek position carries the prefix. */
  lemma BeforeSeekUnprefixed(store: seq<Entry>, p: Bytes)
    ensures WithPrefix(store[..Seek(store, p)], p) == []
  {
    var s := Seek(store, p);
    forall j | 0 <= j < s ensures !HasPrefix(store[..s][j].key, p) {
      if HasPrefix(store[j].key, p) {
        PrefixedNotBelow(store[j].key, p);
      }
    }
    WithPrefixNone(store[..s], p);
  }

  /** On a sorted store, no entry after the end of the prefix block carries the prefix. */
  lemma AfterBlockUnprefixed(store: seq<Entry>, p: Bytes)
    requires Sorted(store)
    ensures WithPrefix(store[PrefixEnd(store, p, Seek(store, p))..], p) == []
  {
    var s := Seek(store, p);
    var e := PrefixEnd(store, p, s);
    var tail := store[e..];
    forall j | 0 <= j < |tail| ensures !HasPrefix(tail[j].key, p) {
      if j > 0 {
        assert LexLe(p, store[e].key) by {
          if s < e {
            PrefixedNotBelow(store[s].key, p);
            LexLeTransitive(p, store[s].key, store[e].key);
          }
        }
        PastPrefixBlock(p, store[e].key, tail[j].key);
      }
    }
    WithPrefixNone(tail, p);
  }

  /** The lexicographic order is transitive where the scan needs it. */
  lemma {:induction false} LexLeTransitive(a: Bytes, b: Bytes, c: Bytes)
    requires LexLe(a, b) && LexLe(b, c)
    ensures LexLe(a, c)
    decreases |a|
  {
    if |a| > 0 && a[0] == b[0] && b[0] == c[0] {
      LexLeTransitive(a[1..], b[1..], c[1..]);
    }
  }

  /**
   * On a store in ascending key order, the seek-then-ValidForPrefix scan visits
   * exactly the entries whose key carries the prefix, in store order.
   */
  lemma ScanIsPrefixFilter(store: seq<Entry>, p: Bytes)
    requires Sorted(store)
    ensures Scanned(store, p) == WithPrefix(store, p)
  {
    var s := Seek(store, p);
    var e := PrefixEnd(store, p, s);
    var before, block, after := store[..s], store[s..e], store[e..];
    assert store == (before + block) + after;
    BeforeSeekUnprefixed(store, p);
    BlockPrefixed(store, p);
    AfterBlockUnprefixed(store, p);
    OnlyMiddlePrefixed(before, block, after, p);
  }

  lemma OnlyMiddlePrefixed(a: seq<Entry>, b: seq<Entry>, c: seq<Entry>, p: Bytes)
    requires WithPrefix(a, p) == [] && WithPrefix(b, p) == b && WithPrefix(c, p) == []
    ensures WithPrefix((a + b) + c, p) == b
  {
    WithPrefixAppend(a, b, p);
    WithPrefixAppend(a + b, c, p);
    assert [] + b + [] == b;
  }

  /** Every entry of the block the scan visits carries the prefix. */
  lemma BlockPrefixed(store: seq<Entry>, p: Bytes)
    ensures WithPrefix(Scanned(store, p), p) == Scanned(store, p)
  {
    var s := Seek(store, p);
    var block := store[s..PrefixEnd(store, p, s)];
    forall j | 0 <= j < |block| ensures HasPrefix(block[j].key, p) {
      assert block[j] == store[s + j];
    }
    WithPrefixAll(block, p);
  }
}
