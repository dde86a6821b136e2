/**
 The bounded, insertion-ordered maps of `anthrouter/session_state.py`.

 An ordered dictionary is a key order (oldest first) and the values.  `Put` is the
 bounded write every store goes through; `Drop` is the deletion of one entry.
 */
module OrderedDict {
  import opened Common

  datatype Dict<K(==), V> = Dict(order: seq<K>, items: map<K, V>) {
    ghost predicate Valid() {
      && NoDuplicates(order)
      && Elements(order) == items.Keys
    }

    function Get(k: K): (r: Option<V>)
      ensures r == None <==> k !in items
    {
      if k in items then Some(items[k]) else None
    }

    /** `popitem(last=False)`: forget the oldest entry. */
    function PopOldest(): (r: Dict<K, V>)
      requires Valid() && order != []
      ensures r.Valid()
    {
      InElements(order[1..], order[0]);
      Dict(order[1..], items - {order[0]})
    }

    /** `store[key] = value`: an existing key keeps its place in the order. */
    function Assign(k: K, v: V): (r: Dict<K, V>)
    {
      Dict(if k in items then order else order + [k], items[k := v])
    }

    /** `move_to_end(key)`. */
    function MoveToEnd(k: K): (r: Dict<K, V>)
    {
      Dict(Without(order, k) + [k], items)
    }

    /** `del store[key]` when present. */
    function Drop(k: K): (r: Dict<K, V>)
    {
      Dict(Without(order, k), items - {k})
    }

    /** Whether writing `k` would push another key out. */
    predicate WouldEvict(cap: nat, k: K) {
      k !in items && |order| >= cap
    }

    /** The store in which a write of `k` lands: without its oldest entry when it is full. */
    function MakeRoom(cap: nat, k: K): (r: Dict<K, V>)
      requires Valid() && 1 <= cap
      ensures r.Valid()
    {
      if WouldEvict(cap, k) then PopOldest() else this
    }

    function Put(cap: nat, k: K, v: V): (r: Dict<K, V>)
      requires Valid() && 1 <= cap
    {
      MakeRoom(cap, k).Assign(k, v).MoveToEnd(k)
    }
  }

  function Empty<K(==), V>(): (r: Dict<K, V>)
    ensures r.Valid()
  {
    Dict([], map[])
  }

  lemma DropValid<K, V>(d: Dict<K, V>, k: K)
    requires d.Valid()
    ensures d.Drop(k).Valid()
    ensures |d.Drop(k).order| <= |d.order|
  {
    WithoutKeepsDistinct(d.order, k);
    ElementsWithout(d.order, k);
  }

  /** What one bounded write does to the order, stated without its steps. */
  lemma PutOrder<K, V>(d: Dict<K, V>, cap: nat, k: K, v: V)
    requires d.Valid() && 1 <= cap
    ensures var r, room := d.Put(cap, k, v), d.MakeRoom(cap, k);
            && r.Valid()
            && r.order == Without(room.order, k) + [k]
            && r.items == room.items[k := v]
    ensures |d.order| <= cap ==> |d.Put(cap, k, v).order| <= cap
  {
    var room := d.MakeRoom(cap, k);
    InElements(room.order, k);
    if k !in room.items {
      WithoutAppended(room.order, k);
      WithoutAbsent(room.order, k);
    }
    WithoutKeepsDistinct(room.order, k);
    InWithout(room.order, k, k);
    AppendKeepsDistinct(Without(room.order, k), k);
    ElementsMoveToEnd(room.order, k);
  }

  /** A key that stays in the store has the written key, and nothing else, added behind it. */
  lemma PutAfter<K, V>(d: Dict<K, V>, cap: nat, k: K, v: V, q: K)
    requires d.Valid() && 1 <= cap && q in d.items && q != k
    requires d.WouldEvict(cap, k) ==> d.order[0] != q
    ensures q in d.Put(cap, k, v).items
    ensures d.Put(cap, k, v).items[q] == d.items[q]
    ensures After(d.Put(cap, k, v).order, q) == After(d.order, q) + {k}
  {
    PutOrder(d, cap, k, v);
    InElements(d.MakeRoom(cap, k).order, q);
    AfterMoveToEnd(d.MakeRoom(cap, k).order, k, q);
  }

  lemma PutNewest<K, V>(d: Dict<K, V>, cap: nat, k: K, v: V)
    requires d.Valid() && 1 <= cap
    ensures k in d.Put(cap, k, v).items && d.Put(cap, k, v).items[k] == v
    ensures After(d.Put(cap, k, v).order, k) == {}
  {
    PutOrder(d, cap, k, v);
    var o := d.MakeRoom(cap, k).order;
    InWithout(o, k, k);
    AfterAppended(Without(o, k), k);
  }

  /** Evicting `q` leaves exactly the keys that were behind it, and the written one. */
  lemma PutEvicts<K, V>(d: Dict<K, V>, cap: nat, k: K, v: V)
    requires d.Valid() && 1 <= cap && d.WouldEvict(cap, k) && |d.order| == cap
    ensures d.order[0] !in d.Put(cap, k, v).items
    ensures |d.Put(cap, k, v).order| == cap
    ensures Elements(d.Put(cap, k, v).order) == After(d.order, d.order[0]) + {k}
  {
    PutOrder(d, cap, k, v);
    var o := d.order[1..];
    InElements(d.order, k);
    InElements(o, k);
    WithoutAbsent(o, k);
    ElementsMoveToEnd(o, k);
    InElements(d.order, d.order[0]);
  }

  /** Removing another key removes it from what is behind `q`, and nothing else. */
  lemma DropAfter<K, V>(d: Dict<K, V>, k: K, q: K)
    requires d.Valid() && q in d.items && q != k
    ensures q in d.Drop(k).items && d.Drop(k).items[q] == d.items[q]
    ensures After(d.Drop(k).order, q) == After(d.order, q) - {k}
  {
    InElements(d.order, q);
    AfterWithout(d.order, k, q);
  }

  // ---- A store that is only written refines its write history ----------------

  datatype Write<K, V> = Write(key: K, value: V)

  function Replay<K(==), V>(cap: nat, h: seq<Write<K, V>>): (d: Dict<K, V>)
    requires 1 <= cap
    ensures d.Valid() && |d.order| <= cap
  {
    if h == [] then Empty()
    else
      var d, w := Replay(cap, h[..|h| - 1]), h[|h| - 1];
      PutOrder(d, cap, w.key, w.value);
      d.Put(cap, w.key, w.value)
  }

  /** Index of the last write of `k`, or -1. */
  function LastWrite<K(==), V>(h: seq<Write<K, V>>, k: K): (i: int)
    ensures -1 <= i < |h|
  {
    if h == [] then -1
    else if h[|h| - 1].key == k then |h| - 1
    else LastWrite(h[..|h| - 1], k)
  }

  function KeysSince<K(==), V>(h: seq<Write<K, V>>, from: nat): set<K>
    requires from <= |h|
  {
    set i | from <= i < |h| :: h[i].key
  }

  /** Links the store after `h` to the history: the keys behind `k` are those written since `k`. */
  ghost predicate Tracks<K, V>(cap: nat, h: seq<Write<K, V>>, d: Dict<K, V>, k: K)
  {
    if k in d.items then
      && LastWrite(h, k) >= 0
      && d.items[k] == h[LastWrite(h, k)].value
      && After(d.order, k) == KeysSince(h, LastWrite(h, k) + 1)
    else LastWrite(h, k) >= 0 ==>
      && |d.order| == cap
      && Elements(d.order) <= KeysSince(h, LastWrite(h, k) + 1)
  }

  lemma KeysSinceExtend<K, V>(h: seq<Write<K, V>>, w: Write<K, V>, from: nat)
    requires from <= |h|
    ensures KeysSince(h + [w], from) == KeysSince(h, from) + {w.key}
  {
    var g := h + [w];
    assert g[|h|].key == w.key;
    forall k | k in KeysSince(h, from) ensures k in KeysSince(g, from) {
      var i :| from <= i < |h| && h[i].key == k;
      assert g[i].key == k;
    }
  }

  lemma LastWriteExtend<K, V>(h: seq<Write<K, V>>, w: Write<K, V>, k: K)
    ensures LastWrite(h + [w], k) == if w.key == k then |h| else LastWrite(h, k)
  {
    assert (h + [w])[..|h|] == h;
  }

  lemma TracksStep<K, V>(cap: nat, h: seq<Write<K, V>>, d: Dict<K, V>, w: Write<K, V>, k: K)
    requires 1 <= cap && d.Valid() && |d.order| <= cap && Tracks(cap, h, d, k)
    ensures Tracks(cap, h + [w], d.Put(cap, w.key, w.value), k)
  {
    var g, r := h + [w], d.Put(cap, w.key, w.value);
    LastWriteExtend(h, w, k);
    if k == w.key {
      PutNewest(d, cap, w.key, w.value);
      assert KeysSince(g, |g|) == {};
    } else if k in d.items {
      KeysSinceExtend(h, w, LastWrite(h, k) + 1);
      if d.WouldEvict(cap, w.key) && d.order[0] == k {
        PutEvicts(d, cap, w.key, w.value);
      } else {
        PutAfter(d, cap, w.key, w.value, k);
      }
    } else {
      PutOrder(d, cap, w.key, w.value);
      if LastWrite(h, k) >= 0 {
        KeysSinceExtend(h, w, LastWrite(h, k) + 1);
        NotWritten(cap, d, w, k);
      }
    }
  }

  lemma NotWritten<K, V>(cap: nat, d: Dict<K, V>, w: Write<K, V>, k: K)
    requires 1 <= cap && d.Valid() && |d.order| == cap && k !in d.items && k != w.key
    ensures |d.Put(cap, w.key, w.value).order| == cap
    ensures Elements(d.Put(cap, w.key, w.value).order) <= Elements(d.order) + {w.key}
  {
    PutOrder(d, cap, w.key, w.value);
    var o := d.MakeRoom(cap, w.key).order;
    ElementsMoveToEnd(o, w.key);
    InElements(o, w.key);
    WithoutKeepsDistinct(o, w.key);
  }

  lemma {:induction false} ReplayTracks<K, V>(cap: nat, h: seq<Write<K, V>>, k: K)
    requires 1 <= cap
    ensures Tracks(cap, h, Replay(cap, h), k)
  {
    if h != [] {
      var g, w := h[..|h| - 1], h[|h| - 1];
      ReplayTracks(cap, g, k);
      TracksStep(cap, g, Replay(cap, g), w, k);
      assert g + [w] == h;
    }
  }

  lemma HeldIsRecent<K, V>(cap: nat, h: seq<Write<K, V>>, d: Dict<K, V>, k: K)
    requires d.Valid() && |d.order| <= cap && Tracks(cap, h, d, k) && k in d.items
    ensures |KeysSince(h, LastWrite(h, k) + 1)| < cap
  {
    InElements(d.order, k);
    AfterIsSmall(d.order, k);
  }

  lemma LostIsOld<K, V>(cap: nat, h: seq<Write<K, V>>, d: Dict<K, V>, k: K)
    requires d.Valid() && Tracks(cap, h, d, k) && k !in d.items && LastWrite(h, k) >= 0
    ensures |KeysSince(h, LastWrite(h, k) + 1)| >= cap
  {
    DistinctCardinality(d.order);
    SubsetCardinality(Elements(d.order), KeysSince(h, LastWrite(h, k) + 1));
  }

  /**
   `k` is held if and only if it has been written and fewer than `cap` other keys have been
   written since; it is then held as last written.
   */
  ghost predicate HeldWhileRecent<K, V>(cap: nat, h: seq<Write<K, V>>, d: Dict<K, V>, k: K) {
    && (k in d.items <==> LastWrite(h, k) >= 0 && |KeysSince(h, LastWrite(h, k) + 1)| < cap)
    && (k in d.items ==> d.items[k] == h[LastWrite(h, k)].value)
  }

  /**
   A write-only store of capacity `cap` holds exactly the `cap` most recently written
   distinct keys, each with its latest value.
   */
  lemma HoldsMostRecent<K, V>(cap: nat, h: seq<Write<K, V>>, d: Dict<K, V>, k: K)
    requires 1 <= cap && d == Replay(cap, h)
    ensures HeldWhileRecent(cap, h, d, k)
  {
    ReplayTracks(cap, h, k);
    if k in d.items {
      HeldIsRecent(cap, h, d, k);
    } else if LastWrite(h, k) >= 0 {
      LostIsOld(cap, h, d, k);
    }
  }
}
