/** The open-addressing hash table of hash_table.c: djb2 hashing, linear
    probing over a power-of-two array of entries, and a doubling resize at
    70% load. A slot whose key has length 0 is empty. Keys are the
    character sequences of the source's string views; values are the
    source's `void *`, with NULL as `None`.

    `HashProbing` holds the hashing and probing arithmetic and the table
    invariant stated on values; `HashTab` holds the table itself. */
module HashProbing {
  import opened Common

  datatype Entry<V> = Entry(key: seq<char>, value: Option<V>)

  const InitialCapacity: nat := 16

  // ---------------------------------------------------------------------
  // Hashing

  const Two32: nat := 0x1_0000_0000

  /** A `char` as the hash loop adds it: a signed 8-bit value converted
      to `unsigned` (characters are taken by their low 8 bits). */
  function CharBits(c: char): (r: nat)
    ensures r < Two32
  {
    var b := (c as int) % 256;
    if b < 128 then b else b - 256 + Two32
  }

  /** djb2: `h = h * 33 + c` from 5381, in 32-bit unsigned arithmetic. */
  function Djb2(s: seq<char>): (h: nat)
    ensures h < Two32
  {
    if s == [] then 5381 else (Djb2(s[..|s| - 1]) * 33 + CharBits(s[|s| - 1])) % Two32
  }

  /** 2^k: the capacities the table takes. */
  function Pow2(k: nat): (p: nat)
    ensures p >= 1
  {
    if k == 0 then 1 else 2 * Pow2(k - 1)
  }

  /** `x & mask` for a mask of the form 2^k - 1, which keeps the low k
      bits: the remainder modulo `mask + 1`. */
  function MaskAnd(x: nat, mask: nat): (r: nat)
    ensures r <= mask
  {
    x % (mask + 1)
  }

  /** With a 2^k - 1 mask, `(idx + 1) & mask` steps forward and wraps to 0. */
  lemma StepWraps(x: nat, mask: nat)
    requires x <= mask
    ensures MaskAnd(x + 1, mask) == if x == mask then 0 else x + 1
  {
  }

  /** The first slot probed for `key`. */
  function Home(key: seq<char>, mask: nat): (h: nat)
    ensures h <= mask
  {
    MaskAnd(Djb2(key), mask)
  }

  /** The `j`-th slot of the cyclic probe sequence that starts at `h`. */
  function Slot(h: nat, j: nat, cap: nat): (s: nat)
    requires h < cap && j < cap
    ensures s < cap
  {
    if h + j < cap then h + j else h + j - cap
  }

  /** How many probe steps lead from `h` to `s`. */
  function Dist(h: nat, s: nat, cap: nat): (d: nat)
    requires h < cap && s < cap
    ensures d < cap
  {
    if s >= h then s - h else s + cap - h
  }

  // ---------------------------------------------------------------------
  // The resize trigger

  /** The double nearest to 0.7 (0x3FE6666666666666), slightly below it. */
  const Point7: real := 6305039478318694.0 / 9007199254740992.0

  /** `count >= capacity * 0.7`, evaluated in double precision; the product
      is exact because the capacity is a power of two. */
  predicate ResizeDue(count: nat, capacity: nat)
  {
    count as real >= capacity as real * Point7
  }

  lemma MulMonotone(a: int, b: int, d: int)
    requires d > 0 && a * d > b * d
    ensures a > b
  {
  }

  /** With the product taken exactly, as `ResizeDue` does (the double
      product is exact for a power-of-two capacity), the trigger is the
      integer test `10 * count >= 7 * capacity` for every capacity a 32-bit
      `unsigned` can hold. */
  lemma ResizeDueExact(count: nat, capacity: nat)
    requires capacity < Two32
    ensures ResizeDue(count, capacity) <==> 10 * count >= 7 * capacity
  {
    var D := 9007199254740992;
    var M := 6305039478318694;
    assert ResizeDue(count, capacity) <==> count * D >= capacity * M;
    if count * D >= capacity * M {
      assert 10 * count * D > (7 * capacity - 1) * D;
      MulMonotone(10 * count, 7 * capacity - 1, D);
    }
    if 10 * count >= 7 * capacity {
      assert 10 * count * D >= 7 * capacity * D >= 10 * capacity * M;
    }
  }

  lemma SlotOfDist(h: nat, s: nat, cap: nat)
    requires h < cap && s < cap
    ensures Slot(h, Dist(h, s, cap), cap) == s
  {
  }

  lemma SlotStep(h: nat, j: nat, cap: nat)
    requires h < cap && j + 1 < cap
    ensures Slot(h, j + 1, cap) == if Slot(h, j, cap) == cap - 1 then 0 else Slot(h, j, cap) + 1
  {
  }

  lemma DistOfSlot(h: nat, j: nat, cap: nat)
    requires h < cap && j < cap
    ensures Dist(h, Slot(h, j, cap), cap) == j
  {
  }

  /** A map has no more distinct values than keys. */
  lemma {:induction false} ValuesBound<K, W>(m: map<K, W>)
    ensures |m.Values| <= |m.Keys|
    decreases |m.Keys|
  {
    if |m.Keys| > 0 {
      var k :| k in m.Keys;
      var m' := m - {k};
      assert m'.Keys == m.Keys - {k};
      ValuesBound(m');
      forall v | v in m.Values
        ensures v in m'.Values + {m[k]}
      {
        var j :| j in m && m[j] == v;
        if j != k {
          assert j in m'.Keys;
        }
      }
    }
  }

  lemma {:induction false} SubsetSize<T>(a: set<T>, b: set<T>)
    requires a <= b
    ensures |a| <= |b|
    decreases |a|
  {
    if a != {} {
      var x :| x in a;
      SubsetSize(a - {x}, b - {x});
    }
  }

  /** The keys a map sends below `i`: those the rehash has reached. */
  ghost function KeysBelow<K>(m: map<K, nat>, i: nat): set<K>
  {
    set k | k in m && m[k] < i
  }

  /** What the rehash needs of the old table: `srcSlot` and `srcContents`
      describe the entries of `src` exactly. */
  ghost predicate SourceInv<V>(src: seq<Entry<V>>, srcSlot: map<seq<char>, nat>,
                               srcContents: map<seq<char>, V>)
  {
    && srcSlot.Keys == srcContents.Keys
    && (forall j {:trigger KeyAt(src, j)} | 0 <= j < |src| && KeyAt(src, j) != [] ::
          KeyAt(src, j) in srcSlot && srcSlot[KeyAt(src, j)] == j)
    && (forall k | k in srcSlot ::
          k != [] && srcSlot[k] < |src| && src[srcSlot[k]] == Entry(k, Some(srcContents[k])))
  }

  /** A table's own ghost description satisfies what the rehash needs. */
  lemma TableSource<V>(es: seq<Entry<V>>, capacity: nat, mask: nat, logCapacity: nat,
                       slot: map<seq<char>, nat>, contents: map<seq<char>, V>)
    requires TableInv(es, capacity, mask, logCapacity, slot, contents)
    ensures SourceInv(es, slot, contents)
  {
  }

  /** One step of the rehash: slot `i` of the old array contributes its
      key exactly when it is occupied. */
  lemma KeysBelowStep<V>(src: seq<Entry<V>>, srcSlot: map<seq<char>, nat>,
                         srcContents: map<seq<char>, V>, i: nat)
    requires i < |src| && SourceInv(src, srcSlot, srcContents)
    ensures KeysBelow(srcSlot, i + 1) ==
      KeysBelow(srcSlot, i) + (if src[i].key != [] then {src[i].key} else {})
    ensures src[i].key != [] ==>
      src[i].key !in KeysBelow(srcSlot, i) && src[i].value == Some(srcContents[src[i].key])
  {
    assert KeyAt(src, i) == src[i].key;
  }

  /** The state of a rehash after the first `i` slots of the old array:
      a valid table holding exactly the old keys recorded below `i`, with
      their old values, and counting them. */
  ghost predicate Rehashed<V>(es: seq<Entry<V>>, capacity: nat, mask: nat, logCapacity: nat,
                              slot: map<seq<char>, nat>, contents: map<seq<char>, V>, count: nat,
                              srcSlot: map<seq<char>, nat>, srcContents: map<seq<char>, V>, i: nat)
  {
    && TableInv(es, capacity, mask, logCapacity, slot, contents)
    && count == |slot| && |slot| <= i
    && slot.Keys == KeysBelow(srcSlot, i)
    && (forall k | k in contents :: k in srcContents && contents[k] == srcContents[k])
  }

  /** A rehash starts from an empty table. */
  lemma RehashStart<V>(es: seq<Entry<V>>, capacity: nat, mask: nat, logCapacity: nat,
                       srcSlot: map<seq<char>, nat>, srcContents: map<seq<char>, V>)
    requires TableInv(es, capacity, mask, logCapacity, map[], map[])
    ensures Rehashed(es, capacity, mask, logCapacity, map[], map[], 0, srcSlot, srcContents, 0)
  {
    assert KeysBelow(srcSlot, 0) == {};
  }

  /** Before visiting old slot `i`, the new table has room and does not yet
      hold that slot's key. */
  lemma RehashReady<V>(src: seq<Entry<V>>, es: seq<Entry<V>>, capacity: nat, mask: nat,
                       logCapacity: nat, slot: map<seq<char>, nat>, contents: map<seq<char>, V>,
                       count: nat, srcSlot: map<seq<char>, nat>, srcContents: map<seq<char>, V>,
                       i: nat)
    requires i < |src| < capacity && SourceInv(src, srcSlot, srcContents)
    requires Rehashed(es, capacity, mask, logCapacity, slot, contents, count, srcSlot, srcContents, i)
    ensures TableInv(es, capacity, mask, logCapacity, slot, contents) && |slot| < capacity
    ensures src[i].key != [] ==> src[i].key !in slot && src[i].value.Some?
  {
    KeysBelowStep(src, srcSlot, srcContents, i);
  }

  /** Visiting old slot `i` (inserting its entry when it is occupied)
      advances the rehash by one slot. */
  lemma RehashAdvance<V>(src: seq<Entry<V>>, es: seq<Entry<V>>, capacity: nat, mask: nat,
                         logCapacity: nat, slot: map<seq<char>, nat>, contents: map<seq<char>, V>,
                         count: nat, srcSlot: map<seq<char>, nat>, srcContents: map<seq<char>, V>,
                         i: nat, es': seq<Entry<V>>, slot': map<seq<char>, nat>,
                         contents': map<seq<char>, V>, count': nat)
    requires i < |src| && SourceInv(src, srcSlot, srcContents)
    requires Rehashed(es, capacity, mask, logCapacity, slot, contents, count, srcSlot, srcContents, i)
    requires src[i].key == [] ==> es' == es && slot' == slot && contents' == contents && count' == count
    requires src[i].key != [] ==>
      && src[i].value.Some?
      && TableInv(es', capacity, mask, logCapacity, slot', contents')
      && slot'.Keys == slot.Keys + {src[i].key} && count' == count + 1
      && contents' == contents[src[i].key := src[i].value.value]
    ensures Rehashed(es', capacity, mask, logCapacity, slot', contents', count', srcSlot, srcContents, i + 1)
  {
    KeysBelowStep(src, srcSlot, srcContents, i);
    if src[i].key != [] {
      var k := src[i].key;
      assert |slot'| == |slot'.Keys| == |slot.Keys| + 1 == count';
      forall x | x in contents' ensures x in srcContents && contents'[x] == srcContents[x] {
        if x != k {
          assert x in contents;
        }
      }
    }
  }

  /** Once every old slot is visited, the new table holds exactly the old
      keys with their old values. */
  lemma RehashFinish<V>(src: seq<Entry<V>>, es: seq<Entry<V>>, capacity: nat, mask: nat,
                        logCapacity: nat, slot: map<seq<char>, nat>, contents: map<seq<char>, V>,
                        count: nat, srcSlot: map<seq<char>, nat>, srcContents: map<seq<char>, V>)
    requires SourceInv(src, srcSlot, srcContents)
    requires Rehashed(es, capacity, mask, logCapacity, slot, contents, count, srcSlot, srcContents, |src|)
    ensures TableInv(es, capacity, mask, logCapacity, slot, contents)
    ensures contents == srcContents && slot.Keys == srcSlot.Keys && count == |slot|
  {
    assert KeysBelow(srcSlot, |src|) == srcSlot.Keys;
  }

  /** The slot numbers `0 .. n-1`. */
  function Range(n: nat): (r: set<nat>)
    ensures |r| == n && forall i: int :: i in r <==> 0 <= i < n
  {
    if n == 0 then {} else Range(n - 1) + {n - 1}
  }

  // ---------------------------------------------------------------------
  // The table invariant, on the entry array's contents

  /** `es` is a table of `capacity` entries (a power of two of at least 16
      that a 32-bit `unsigned` holds, with `mask == capacity - 1`); each key
      of `contents` sits with its value in the slot `slot` records; every
      occupied slot is recorded; and the probe path from a key's home slot
      to its slot is fully occupied, which is what lets a lookup stop at
      the first empty slot. */
  ghost predicate TableInv<V>(es: seq<Entry<V>>, capacity: nat, mask: nat, logCapacity: nat,
                              slot: map<seq<char>, nat>, contents: map<seq<char>, V>)
  {
    && |es| == capacity
    && 16 <= capacity <= 0x8000_0000
    && mask + 1 == capacity && capacity == Pow2(logCapacity)
    && slot.Keys == contents.Keys
    && (forall k {:trigger slot[k]} | k in slot ::
          k != [] && slot[k] < capacity && es[slot[k]] == Entry(k, Some(contents[k])))
    && (forall i {:trigger KeyAt(es, i)} | 0 <= i < capacity && KeyAt(es, i) != [] ::
          KeyAt(es, i) in slot && slot[KeyAt(es, i)] == i)
    && (forall k, j {:trigger KeyAt(es, Slot(Home(k, mask), j, capacity))}
          | k in slot && 0 <= j < Dist(Home(k, mask), slot[k], capacity) ::
          KeyAt(es, Slot(Home(k, mask), j, capacity)) != [])
  }

  /** The key in slot `i`. */
  function KeyAt<V>(es: seq<Entry<V>>, i: nat): seq<char>
    requires i < |es|
  {
    es[i].key
  }

  /** Every slot on the probe path from `key`'s home slot up to `idx`
      (exclusive) is occupied. */
  ghost predicate PathFull<V>(es: seq<Entry<V>>, mask: nat, key: seq<char>, idx: nat)
    requires mask < |es| && idx < |es|
  {
    forall j | 0 <= j < Dist(Home(key, mask), idx, |es|) ::
      es[Slot(Home(key, mask), j, |es|)].key != []
  }

  /** A zeroed array is an empty table. */
  lemma EmptyTable<V>(es: seq<Entry<V>>, logCapacity: nat)
    requires |es| == Pow2(logCapacity) && 16 <= |es| <= 0x8000_0000
    requires forall i | 0 <= i < |es| :: es[i].key == []
    ensures TableInv(es, |es|, |es| - 1, logCapacity, map[], map[])
  {
  }

  /** Every slot is occupied only when there are at least as many keys as
      slots. */
  lemma FullMeansManyKeys<V>(es: seq<Entry<V>>, capacity: nat, mask: nat, logCapacity: nat,
                             slot: map<seq<char>, nat>, contents: map<seq<char>, V>)
    requires TableInv(es, capacity, mask, logCapacity, slot, contents)
    requires forall i | 0 <= i < capacity :: es[i].key != []
    ensures |slot| >= capacity
  {
    forall i | 0 <= i < capacity
      ensures i in slot.Values
    {
      var k := KeyAt(es, i);
      assert k in slot && slot[k] == i;
    }
    assert Range(capacity) <= slot.Values;
    SubsetSize(Range(capacity), slot.Values);
    ValuesBound(slot);
    assert |slot.Keys| == |slot|;
  }

  /** While fewer keys than slots are stored, some slot is empty. */
  lemma EmptySlotExists<V>(es: seq<Entry<V>>, capacity: nat, mask: nat, logCapacity: nat,
                           slot: map<seq<char>, nat>, contents: map<seq<char>, V>) returns (e: nat)
    requires TableInv(es, capacity, mask, logCapacity, slot, contents) && |slot| < capacity
    ensures e < capacity && es[e].key == []
  {
    if forall i | 0 <= i < capacity :: es[i].key != [] {
      FullMeansManyKeys(es, capacity, mask, logCapacity, slot, contents);
    }
    e :| 0 <= e < capacity && es[e].key == [];
  }

  /** A probe from `key`'s home slot that passed only occupied slots holding
      other keys and stopped at `idx` (holding `key`, or empty) has found
      the key's slot, or shown the key absent. */
  lemma ProbeOutcome<V>(es: seq<Entry<V>>, capacity: nat, mask: nat, logCapacity: nat,
                        slot: map<seq<char>, nat>, contents: map<seq<char>, V>,
                        key: seq<char>, idx: nat)
    requires TableInv(es, capacity, mask, logCapacity, slot, contents) && idx < capacity
    requires es[idx].key == key || es[idx].key == []
    requires forall j | 0 <= j < Dist(Home(key, mask), idx, capacity) ::
      es[Slot(Home(key, mask), j, capacity)].key != [] && es[Slot(Home(key, mask), j, capacity)].key != key
    ensures key in slot ==> idx == slot[key]
    ensures key !in slot ==> es[idx].key == [] && PathFull(es, mask, key, idx)
  {
    var home := Home(key, mask);
    var t := Dist(home, idx, capacity);
    SlotOfDist(home, idx, capacity);
    assert KeyAt(es, idx) == es[idx].key;
    var s := if key in slot then slot[key] else 0;
    var d := Dist(home, s, capacity);
    SlotOfDist(home, s, capacity);
    // the entries at distances d and t along the path, named so that the
    // path facts of the invariant and of the probe apply to them
    var atD := es[Slot(home, d, capacity)].key;
    var atT := KeyAt(es, Slot(home, t, capacity));
  }

  /** Writing a new key into the empty slot that ends its probe path keeps
      the invariant; writing the empty key changes nothing reachable. */
  lemma StorePreserves<V>(es: seq<Entry<V>>, capacity: nat, mask: nat, logCapacity: nat,
                          slot: map<seq<char>, nat>, contents: map<seq<char>, V>,
                          idx: nat, key: seq<char>, value: V)
    requires TableInv(es, capacity, mask, logCapacity, slot, contents)
    requires idx < capacity && es[idx].key == []
    requires key != [] ==> key !in slot && PathFull(es, mask, key, idx)
    ensures TableInv(es[idx := Entry(key, Some(value))], capacity, mask, logCapacity,
                     if key == [] then slot else slot[key := idx],
                     if key == [] then contents else contents[key := value])
  {
    var es' := es[idx := Entry(key, Some(value))];
    var slot' := if key == [] then slot else slot[key := idx];
    var contents' := if key == [] then contents else contents[key := value];
    forall k | k in slot'
      ensures k != [] && slot'[k] < capacity && es'[slot'[k]] == Entry(k, Some(contents'[k]))
    {
      if k != key {
        assert KeyAt(es, slot[k]) == k;
      }
    }
    forall i | 0 <= i < capacity && KeyAt(es', i) != []
      ensures KeyAt(es', i) in slot' && slot'[KeyAt(es', i)] == i
    {
      if i != idx {
        assert KeyAt(es', i) == KeyAt(es, i);
      }
    }
    forall k, j | k in slot' && 0 <= j < Dist(Home(k, mask), slot'[k], capacity)
      ensures KeyAt(es', Slot(Home(k, mask), j, capacity)) != []
    {
      var h := Home(k, mask);
      if k != key {
        assert KeyAt(es, Slot(h, j, capacity)) != [];
      } else {
        assert es[Slot(h, j, capacity)].key != [];
      }
    }
  }

  /** Replacing the value of a stored key keeps the invariant. */
  lemma OverwritePreserves<V>(es: seq<Entry<V>>, capacity: nat, mask: nat, logCapacity: nat,
                              slot: map<seq<char>, nat>, contents: map<seq<char>, V>,
                              idx: nat, value: V)
    requires TableInv(es, capacity, mask, logCapacity, slot, contents)
    requires idx < capacity && es[idx].key != []
    ensures TableInv(es[idx := es[idx].(value := Some(value))], capacity, mask, logCapacity,
                     slot, contents[es[idx].key := value])
  {
    var es' := es[idx := es[idx].(value := Some(value))];
    var contents' := contents[es[idx].key := value];
    assert KeyAt(es, idx) == es[idx].key;
    forall k | k in slot
      ensures k != [] && slot[k] < capacity && es'[slot[k]] == Entry(k, Some(contents'[k]))
    {
      assert KeyAt(es, slot[k]) == k;
    }
    forall i | 0 <= i < capacity && KeyAt(es', i) != []
      ensures KeyAt(es', i) in slot && slot[KeyAt(es', i)] == i
    {
      assert KeyAt(es', i) == KeyAt(es, i);
    }
    forall k, j | k in slot && 0 <= j < Dist(Home(k, mask), slot[k], capacity)
      ensures KeyAt(es', Slot(Home(k, mask), j, capacity)) != []
    {
      assert KeyAt(es, Slot(Home(k, mask), j, capacity)) != [];
    }
  }
}

/** The hash table object of hash_table.c. */
module HashTab {
  import opened Common
  import opened HashProbing

  class HashTable<V> {
    var entries: array<Entry<V>>
    var capacity: nat
    var mask: nat
    var count: nat
    /** The key/value pairs a lookup can reach. */
    ghost var contents: map<seq<char>, V>
    /** The slot holding each key. */
    ghost var slot: map<seq<char>, nat>
    /** The capacity is `2^logCapacity`. */
    ghost var logCapacity: nat

    ghost predicate Layout()
      reads this`entries, this`capacity, this`mask, this`logCapacity, this`slot, this`contents, entries
    {
      TableInv(entries[..], capacity, mask, logCapacity, slot, contents)
    }

    /** The table invariant: an empty slot always remains, and `count`
        bounds the number of stored keys (it exceeds it only through puts
        of the empty key, which land in a slot that stays empty). */
    ghost predicate Valid()
      reads this, entries
    {
      Layout() && |slot| < capacity && |slot| <= count
    }

    /** `hashtab_create`: capacity 16, mask 15, count 0, all slots empty. */
    constructor Create()
      ensures Valid() && fresh(entries)
      ensures capacity == InitialCapacity && mask == 15 && count == 0
      ensures forall i | 0 <= i < capacity :: entries[i].key == []
      ensures contents == map[]
    {
      var a := new Entry<V>[16](_ => Entry([], None));
      entries := a;
      capacity := 16;
      mask := 15;
      count := 0;
      contents := map[];
      slot := map[];
      logCapacity := 4;
      assert Pow2(2) == 4;
      assert Pow2(4) == 16;
      EmptyTable(a[..], 4);
    }

    /** The hashing half of `get_idx`: djb2 over the key's characters,
        masked down to a slot number. */
    method HomeSlot(key: seq<char>) returns (home: nat)
      requires mask + 1 == capacity
      ensures home == Home(key, mask) && home < capacity
    {
      var h: nat := 5381;
      for i := 0 to |key|
        invariant h == Djb2(key[..i])
      {
        assert key[..i + 1][..i] == key[..i];
        h := (h * 33 + CharBits(key[i])) % Two32;
      }
      assert key[..|key|] == key;
      home := MaskAnd(h, mask);
    }

    /** The probing loop of `get_idx`: from `home`, step to the next slot
        (wrapping through the mask) until the slot holds `key` or is empty.
        The ghost `e` is an empty slot, which bounds the search. */
    method Probe(home: nat, key: seq<char>, ghost e: nat) returns (idx: nat)
      requires entries.Length == capacity && mask + 1 == capacity
      requires home < capacity && e < capacity && entries[e].key == []
      ensures idx < capacity && (entries[idx].key == key || entries[idx].key == [])
      ensures forall j | 0 <= j < Dist(home, idx, capacity) ::
        entries[Slot(home, j, capacity)].key != [] && entries[Slot(home, j, capacity)].key != key
    {
      idx := home;
      ghost var t: nat := 0;
      ghost var de := Dist(home, e, capacity);
      SlotOfDist(home, e, capacity);
      while entries[idx].key != [] && entries[idx].key != key
        invariant t <= de && idx == Slot(home, t, capacity)
        invariant forall j | 0 <= j < t ::
          entries[Slot(home, j, capacity)].key != [] && entries[Slot(home, j, capacity)].key != key
        decreases de - t
      {
        assert t != de;
        StepWraps(idx, mask);
        SlotStep(home, t, capacity);
        idx := MaskAnd(idx + 1, mask);
        t := t + 1;
      }
      DistOfSlot(home, t, capacity);
    }

    /** `get_idx`: the slot holding `key`, or the empty slot that ends its
        probe path when it is not stored. */
    method FindSlot(key: seq<char>) returns (idx: nat)
      requires Layout() && |slot| < capacity
      ensures idx < capacity
      ensures key in slot ==> idx == slot[key]
      ensures key !in slot ==> entries[idx].key == [] && PathFull(entries[..], mask, key, idx)
    {
      var home := HomeSlot(key);
      ghost var e := EmptySlotExists(entries[..], capacity, mask, logCapacity, slot, contents);
      idx := Probe(home, key, e);
      ProbeOutcome(entries[..], capacity, mask, logCapacity, slot, contents, key, idx);
    }

    /** Case 2 of `hashtab_put` (and the body of the rehashing loop): write
        the key and value into the empty slot that ends the key's probe
        path, and count it. An empty key leaves the slot reading as empty,
        so nothing becomes reachable. */
    method Store(idx: nat, key: seq<char>, value: V)
      requires Layout() && idx < capacity && entries[idx].key == []
      requires key != [] ==> key !in slot && PathFull(entries[..], mask, key, idx)
      modifies this, entries
      ensures Layout() && entries == old(entries)
      ensures capacity == old(capacity) && mask == old(mask) && logCapacity == old(logCapacity)
      ensures entries[..] == old(entries[..])[idx := Entry(key, Some(value))]
      ensures count == old(count) + 1
      ensures slot == if key == [] then old(slot) else old(slot)[key := idx]
      ensures contents == if key == [] then old(contents) else old(contents)[key := value]
    {
      ghost var es := entries[..];
      StorePreserves(es, capacity, mask, logCapacity, slot, contents, idx, key, value);
      entries[idx] := Entry(key, Some(value));
      count := count + 1;
      if key != [] {
        slot := slot[key := idx];
        contents := contents[key := value];
      }
      assert entries[..] == es[idx := Entry(key, Some(value))];
    }

    /** Case 1 of `hashtab_put`: the key is stored at `idx`; replace its
        value. */
    method Overwrite(idx: nat, value: V)
      requires Layout() && idx < capacity && entries[idx].key != []
      modifies this, entries
      ensures Layout() && entries == old(entries)
      ensures capacity == old(capacity) && mask == old(mask) && logCapacity == old(logCapacity)
      ensures entries[..] == old(entries[..])[idx := old(entries[idx]).(value := Some(value))]
      ensures count == old(count)
      ensures slot == old(slot) && contents == old(contents)[old(entries[idx].key) := value]
    {
      ghost var es := entries[..];
      OverwritePreserves(es, capacity, mask, logCapacity, slot, contents, idx, value);
      contents := contents[entries[idx].key := value];
      entries[idx] := entries[idx].(value := Some(value));
      assert entries[..] == es[idx := es[idx].(value := Some(value))];
    }

    /** One step of the rehashing loop: find the slot of a key that is not
        yet stored and store the entry there. */
    method Insert(e: Entry<V>)
      requires Layout() && |slot| < capacity
      requires e.key != [] && e.key !in slot && e.value.Some?
      modifies this, entries
      ensures Layout() && entries == old(entries)
      ensures capacity == old(capacity) && mask == old(mask) && logCapacity == old(logCapacity)
      ensures count == old(count) + 1
      ensures slot.Keys == old(slot).Keys + {e.key}
      ensures contents == old(contents)[e.key := e.value.value]
    {
      var idx := FindSlot(e.key);
      Store(idx, e.key, e.value.value);
    }

    /** The first half of `resize_table`: install a zeroed entry array of
        the new capacity (with the mask kept equal to `capacity - 1`) and
        reset the count. */
    method Reset(newCapacity: nat, ghost newLog: nat)
      requires newCapacity == Pow2(newLog) && 16 <= newCapacity <= 0x8000_0000
      modifies this
      ensures Layout() && fresh(entries)
      ensures capacity == newCapacity && mask == capacity - 1
      ensures count == 0 && slot == map[] && contents == map[]
    {
      var a := new Entry<V>[newCapacity](_ => Entry([], None));
      entries := a;
      capacity := newCapacity;
      mask := newCapacity - 1;
      logCapacity := newLog;
      count := 0;
      contents := map[];
      slot := map[];
      EmptyTable(a[..], newLog);
    }

    /** The rehashing loop of `resize_table`: every occupied entry of the
        old array `src` is re-inserted and counted. */
    method Rehash(src: seq<Entry<V>>, ghost srcSlot: map<seq<char>, nat>,
                  ghost srcContents: map<seq<char>, V>)
      requires Layout() && slot == map[] && contents == map[] && count == 0
      requires |src| < capacity && SourceInv(src, srcSlot, srcContents)
      modifies this, entries
      ensures Layout() && entries == old(entries) && capacity == old(capacity) && mask == old(mask)
      ensures contents == srcContents && slot.Keys == srcSlot.Keys && count == |slot|
    {
      RehashStart(entries[..], capacity, mask, logCapacity, srcSlot, srcContents);
      for i := 0 to |src|
        invariant entries == old(entries) && capacity == old(capacity) && mask == old(mask)
        invariant logCapacity == old(logCapacity)
        invariant Rehashed(entries[..], capacity, mask, logCapacity, slot, contents, count,
                           srcSlot, srcContents, i)
      {
        RehashEntry(src, srcSlot, srcContents, i);
      }
      RehashFinish(src, entries[..], capacity, mask, logCapacity, slot, contents, count,
                   srcSlot, srcContents);
    }

    /** One iteration of the rehash loop: re-insert the entry of old slot
        `i` when it is occupied. */
    method RehashEntry(src: seq<Entry<V>>, ghost srcSlot: map<seq<char>, nat>,
                       ghost srcContents: map<seq<char>, V>, i: nat)
      requires i < |src| < capacity && SourceInv(src, srcSlot, srcContents)
      requires Rehashed(entries[..], capacity, mask, logCapacity, slot, contents, count,
                        srcSlot, srcContents, i)
      modifies this, entries
      ensures entries == old(entries) && capacity == old(capacity) && mask == old(mask)
      ensures logCapacity == old(logCapacity)
      ensures Rehashed(entries[..], capacity, mask, logCapacity, slot, contents, count,
                       srcSlot, srcContents, i + 1)
    {
      RehashReady(src, entries[..], capacity, mask, logCapacity, slot, contents, count,
                  srcSlot, srcContents, i);
      ghost var es, oldSlot, oldContents, oldCount := entries[..], slot, contents, count;
      if src[i].key != [] {
        Insert(src[i]);
      }
      RehashAdvance(src, es, capacity, mask, logCapacity, oldSlot, oldContents, oldCount,
                    srcSlot, srcContents, i, entries[..], slot, contents, count);
    }

    /** `resize_table` with the mask kept equal to `capacity - 1`: doubles
        the capacity and re-inserts every stored entry. */
    method Resize()
      requires Valid() && capacity <= 0x4000_0000
      modifies this, entries
      ensures Valid() && fresh(entries)
      ensures capacity == 2 * old(capacity) && mask == capacity - 1
      ensures contents == old(contents) && count == |contents|
    {
      var oldEntries := entries;
      ghost var oldSlot := slot;
      ghost var oldContents := contents;
      TableSource(entries[..], capacity, mask, logCapacity, slot, contents);
      Reset(capacity * 2, logCapacity + 1);
      Rehash(oldEntries[..], oldSlot, oldContents);
      assert |slot| == |slot.Keys| == |oldSlot.Keys| == |oldSlot|;
    }

    /** `hashtab_put`: resize when the load reaches 70%, then overwrite the
        value of an existing key or store a new one and count it. A put of
        the empty key fills no slot (the slot still reads as empty) but is
        counted. */
    method Put(key: seq<char>, value: V)
      requires Valid()
      requires !ResizeDue(count, capacity) || capacity <= 0x4000_0000
      modifies this, entries
      ensures Valid()
      ensures fresh(entries) || entries == old(entries)
      ensures contents == if key == [] then old(contents) else old(contents)[key := value]
      ensures count == (if ResizeDue(old(count), old(capacity)) then |old(contents)| else old(count))
                       + (if key in old(contents) then 0 else 1)
      ensures capacity == if ResizeDue(old(count), old(capacity)) then 2 * old(capacity) else old(capacity)
    {
      ResizeDueExact(count, capacity);
      if ResizeDue(count, capacity) {
        Resize();
      }
      var idx := FindSlot(key);
      if entries[idx].key != [] {
        Overwrite(idx, value);
      } else {
        Store(idx, key, value);
      }
    }

    /** `hashtab_get`: the stored value, or NULL when the probe ends at an
        empty slot. */
    method Get(key: seq<char>) returns (r: Option<V>)
      requires Valid()
      ensures r == if key in contents then Some(contents[key]) else None
    {
      var idx := FindSlot(key);
      if entries[idx].key == [] {
        return None;
      }
      return entries[idx].value;
    }
  }
}

/** The resize of `resize_table` as written, which doubles the capacity
    but keeps the old mask, next to the corrected one the table above
    models. */
module HashResize {
  import opened Common
  import opened HashProbing

  /** The scalar fields of a `hashtab_t`. */
  datatype Shape = Shape(capacity: nat, mask: nat, count: nat)

  /** The fields `hashtab_create` sets. */
  const Created: Shape := Shape(InitialCapacity, InitialCapacity - 1, 0)

  /** The fields after `hashtab_put` of a key not yet stored, as written:
      `resize_table` doubles the capacity and re-inserts the `count` stored
      entries but leaves the mask alone; then the new key is counted. */
  function PutNewAsWritten(t: Shape): (r: Shape)
    ensures r.mask == t.mask && r.count == t.count + 1
    ensures r.capacity == t.capacity || r.capacity == 2 * t.capacity
    ensures r.capacity != t.capacity <==> ResizeDue(t.count, t.capacity) && t.capacity > 0
  {
    var capacity := if ResizeDue(t.count, t.capacity) then 2 * t.capacity else t.capacity;
    Shape(capacity, t.mask, t.count + 1)
  }

  /** The same with the mask recomputed on resize. */
  function PutNew(t: Shape): (r: Shape)
    requires t.capacity > 0
    ensures r.mask + 1 == r.capacity && r.count == t.count + 1
    ensures r.capacity == t.capacity || r.capacity == 2 * t.capacity
    ensures r.capacity != t.capacity <==> ResizeDue(t.count, t.capacity)
  {
    var capacity := if ResizeDue(t.count, t.capacity) then 2 * t.capacity else t.capacity;
    Shape(capacity, capacity - 1, t.count + 1)
  }

  /** `n` puts of distinct keys. */
  function PutsAsWritten(t: Shape, n: nat): (r: Shape)
    ensures r.mask == t.mask && r.count == t.count + n && r.capacity >= t.capacity
  {
    if n == 0 then t else PutNewAsWritten(PutsAsWritten(t, n - 1))
  }

  function Puts(t: Shape, n: nat): (r: Shape)
    requires t.capacity > 0
    ensures r.capacity >= t.capacity && r.count == t.count + n
  {
    if n == 0 then t else PutNew(Puts(t, n - 1))
  }

  lemma {:induction false} FirstTwelveAsWritten(n: nat)
    requires n <= 12
    ensures PutsAsWritten(Created, n) == Shape(16, 15, n)
  {
    if n > 0 {
      FirstTwelveAsWritten(n - 1);
      ResizeDueExact(n - 1, 16);
    }
  }

  lemma {:induction false} AfterTwelveAsWritten(n: nat)
    requires 13 <= n <= 16
    ensures PutsAsWritten(Created, n) == Shape(32, 15, n)
  {
    if n == 13 {
      FirstTwelveAsWritten(12);
      ResizeDueExact(12, 16);
    } else {
      AfterTwelveAsWritten(n - 1);
      ResizeDueExact(n - 1, 32);
    }
  }

  /** As written, sixteen distinct keys put into a new table leave a
      capacity of 32 with the mask still 15: all sixteen sit in slots 0 to
      15, and the load (16 of 32) is below the resize trigger, so the next
      put of a new key does not resize. */
  lemma SixteenPutsAsWritten()
    ensures PutsAsWritten(Created, 16) == Shape(32, 15, 16)
    ensures !ResizeDue(16, 32)
  {
    AfterTwelveAsWritten(16);
    ResizeDueExact(16, 32);
  }

  /** If as many distinct slots as the mask allows are occupied, every slot
      up to the mask is. */
  lemma SlotsFilled<V>(es: seq<Entry<V>>, mask: nat, occupied: set<nat>)
    requires mask < |es|
    requires forall j | j in occupied :: j <= mask && es[j].key != []
    requires |occupied| == mask + 1
    ensures forall j | 0 <= j <= mask :: es[j].key != []
  {
    var all := Range(mask + 1);
    assert occupied <= all;
    assert all * occupied == occupied;
    assert |all - occupied| == 0;
    forall j | 0 <= j <= mask
      ensures es[j].key != []
    {
      assert j in all && j !in all - occupied;
    }
  }

  /** `get_idx`'s probe loop from slot `idx`, cut off after `fuel` steps:
      `None` when it has not stopped by then. */
  function ProbeAsWritten<V>(es: seq<Entry<V>>, mask: nat, key: seq<char>, idx: nat,
                             fuel: nat): Option<nat>
    requires mask < |es| && idx <= mask
    decreases fuel
  {
    if fuel == 0 then None
    else if es[idx].key == [] || es[idx].key == key then Some(idx)
    else ProbeAsWritten(es, mask, key, MaskAnd(idx + 1, mask), fuel - 1)
  }

  /** When every slot up to the mask holds some other key, the probe for a
      new key never stops, however many steps it is given. */
  lemma {:induction false} ProbeNeverStops<V>(es: seq<Entry<V>>, mask: nat, key: seq<char>,
                                              idx: nat, fuel: nat)
    requires mask < |es| && idx <= mask
    requires forall j | 0 <= j <= mask :: es[j].key != [] && es[j].key != key
    ensures ProbeAsWritten(es, mask, key, idx, fuel) == None
    decreases fuel
  {
    if fuel > 0 {
      ProbeNeverStops(es, mask, key, MaskAnd(idx + 1, mask), fuel - 1);
    }
  }

  /** With the mask recomputed, a put of a new key always leaves the mask
      one below the capacity and a free slot. */
  lemma PutNewKeepsRoom(t: Shape)
    requires 16 <= t.capacity < 0x8000_0000 && t.mask + 1 == t.capacity && t.count < t.capacity
    ensures PutNew(t).mask + 1 == PutNew(t).capacity && PutNew(t).count < PutNew(t).capacity
  {
    ResizeDueExact(t.count, t.capacity);
  }

  /** With the mask recomputed, sixteen puts leave the mask at 31. */
  lemma {:induction false} SixteenPuts()
    ensures Puts(Created, 16) == Shape(32, 31, 16)
  {
    assert Puts(Created, 12) == Shape(16, 15, 12) by {
      FirstTwelve(12);
    }
    ResizeDueExact(12, 16);
    ResizeDueExact(13, 32);
    ResizeDueExact(14, 32);
    ResizeDueExact(15, 32);
  }

  lemma {:induction false} FirstTwelve(n: nat)
    requires n <= 12
    ensures Puts(Created, n) == Shape(16, 15, n)
  {
    if n > 0 {
      FirstTwelve(n - 1);
      ResizeDueExact(n - 1, 16);
    }
  }
}
