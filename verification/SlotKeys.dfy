/** The index from hash slots to keys. */
module SlotKeys {
  import opened Wrappers

  type byte = x: int | 0 <= x < 256
  type Bytes = seq<byte>
  type Hash = Bytes -> nat                 // crc16 modulo 16384

  const SLOTS: nat := 16384

  // ----------------------------------------------------------------------- hash tags

  function IndexFrom(key: Bytes, c: byte, i: nat): (r: nat)
    requires i <= |key|
    ensures i <= r <= |key| && (r < |key| ==> key[r] == c) && forall j | i <= j < r :: key[j] != c
    decreases |key| - i
  {
    if i == |key| || key[i] == c then i else IndexFrom(key, c, i + 1)
  }

  const OPEN: byte := 123
  const CLOSE: byte := 125

  /** What is hashed: the part between the first '{' and the first '}' after it, if not empty. */
  function Tag(key: Bytes): Bytes {
    var s := IndexFrom(key, OPEN, 0);
    if s == |key| then key
    else
      var e := IndexFrom(key, CLOSE, s + 1);
      if e == |key| || e == s + 1 then key else key[s + 1..e]
  }

  function Slot(hash: Hash, key: Bytes): (r: nat)
    ensures r < SLOTS
  {
    hash(Tag(key)) % SLOTS
  }

  /** keyHashSlot. */
  method KeyHashSlot(hash: Hash, key: Bytes) returns (slot: nat)
    ensures slot == Slot(hash, key)
  {
    var s := 0;
    while s < |key| && key[s] != OPEN
      invariant s <= |key| && IndexFrom(key, OPEN, s) == IndexFrom(key, OPEN, 0)
    {
      s := s + 1;
    }
    if s == |key| {
      return hash(key) % SLOTS;
    }
    var e := s + 1;
    while e < |key| && key[e] != CLOSE
      invariant s + 1 <= e <= |key| && IndexFrom(key, CLOSE, e) == IndexFrom(key, CLOSE, s + 1)
    {
      e := e + 1;
    }
    if e == |key| || e == s + 1 {
      return hash(key) % SLOTS;
    }
    slot := hash(key[s + 1..e]) % SLOTS;
  }

  /** A key without '{', without '}' behind its first '{', or with that '}' right behind it is
      hashed whole. */
  lemma HashedWhole(hash: Hash, key: Bytes, a: Bytes, b: Bytes)
    requires '{' as int !in a && ('}' as int !in b || b[0] == '}' as int)
    ensures '{' as int !in key ==> Slot(hash, key) == hash(key) % 16384
    ensures var braced := a + ['{' as int] + b; Slot(hash, braced) == hash(braced) % 16384
  {
    var braced := a + [OPEN] + b;
    var s := |a|;
    assert braced[s] == OPEN && forall j | 0 <= j < s :: braced[j] == a[j];
    assert IndexFrom(braced, OPEN, 0) == s;
    assert forall j | s + 1 <= j < |braced| :: braced[j] == b[j - s - 1];
  }

  /** Any other key is hashed by what stands between them. */
  lemma HashedByTag(hash: Hash, a: Bytes, tag: Bytes, b: Bytes)
    requires '{' as int !in a && '}' as int !in tag && tag != []
    ensures Slot(hash, a + ['{' as int] + tag + ['}' as int] + b) == hash(tag) % 16384
  {
    TagIs(a, tag, b);
  }

  /** Keys with one tag share a slot, whatever stands around it. */
  lemma SameTag(hash: Hash, a: Bytes, b: Bytes, c: Bytes, d: Bytes, tag: Bytes)
    requires OPEN !in a && OPEN !in c && CLOSE !in tag && tag != []
    ensures Slot(hash, a + [OPEN] + tag + [CLOSE] + b) == Slot(hash, c + [OPEN] + tag + [CLOSE] + d)
  {
    TagIs(a, tag, b);
    TagIs(c, tag, d);
  }

  lemma TagIs(a: Bytes, tag: Bytes, b: Bytes)
    requires OPEN !in a && CLOSE !in tag && tag != []
    ensures Tag(a + [OPEN] + tag + [CLOSE] + b) == tag
  {
    var key := a + [OPEN] + tag + [CLOSE] + b;
    var s, e := |a|, |a| + 1 + |tag|;
    assert key[s] == OPEN && forall j | 0 <= j < s :: key[j] == a[j];
    assert IndexFrom(key, OPEN, 0) == s;
    assert key[e] == CLOSE && forall j | s + 1 <= j < e :: key[j] == tag[j - s - 1];
    assert IndexFrom(key, CLOSE, s + 1) == e;
  }

  // ------------------------------------------------------------- order of byte strings

  predicate Less(a: Bytes, b: Bytes) {
    b != [] && (a == [] || a[0] < b[0] || (a[0] == b[0] && Less(a[1..], b[1..])))
  }

  lemma {:induction false} Total(a: Bytes, b: Bytes)
    ensures Less(a, b) || a == b || Less(b, a)
    ensures !(Less(a, b) && Less(b, a)) && !Less(a, a)
    decreases |a|
  {
    if a != [] {
      Total(a[1..], a[1..]);
      if b != [] && a[0] == b[0] {
        Total(a[1..], b[1..]);
        assert a[1..] == b[1..] ==> a == [a[0]] + a[1..] == [b[0]] + b[1..] == b;
      }
    }
  }

  lemma {:induction false} Transitive(a: Bytes, b: Bytes, c: Bytes)
    requires Less(a, b) && Less(b, c)
    ensures Less(a, c)
    decreases |a|
  {
    if a != [] && a[0] == b[0] == c[0] {
      Transitive(a[1..], b[1..], c[1..]);
    }
  }

  predicate Leq(a: Bytes, b: Bytes) {
    a == b || Less(a, b)
  }

  // ------------------------------------------------------------------------ the index

  /** The slot in front of a key: two bytes, high byte first. */
  function Prefix(slot: nat): Bytes
    requires slot < SLOTS
  {
    [slot / 256, slot % 256]
  }

  function Entry(hash: Hash, key: Bytes): Bytes {
    Prefix(Slot(hash, key)) + key
  }

  function KeysOf(hash: Hash, db: set<Bytes>, slot: nat): set<Bytes> {
    set k | k in db && Slot(hash, k) == slot
  }

  predicate HasPrefix(e: Bytes, slot: nat)
    requires slot < SLOTS
  {
    |e| >= 2 && e[0] == slot / 256 && e[1] == slot % 256
  }

  lemma EntryOf(hash: Hash, key: Bytes, slot: nat)
    requires slot < SLOTS
    ensures Entry(hash, key)[2..] == key && |Entry(hash, key)| >= 2
    ensures HasPrefix(Entry(hash, key), slot) <==> Slot(hash, key) == slot
  {
  }

  lemma SamePrefix(hash: Hash, a: Bytes, b: Bytes)
    requires Slot(hash, a) == Slot(hash, b)
    ensures Less(Entry(hash, a), Entry(hash, b)) <==> Less(a, b)
  {
    var x, y := Entry(hash, a), Entry(hash, b);
    assert x[1..][1..] == a && y[1..][1..] == b;
    assert Less(x, y) <==> Less(x[1..], y[1..]);
    assert Less(x[1..], y[1..]) <==> Less(a, b);
  }

  /** The entries of a slot lie together, from the bare prefix on. */
  lemma PrefixOrder(x: Bytes, y: Bytes, slot: nat)
    requires slot < SLOTS && |x| >= 2 && HasPrefix(y, slot)
    ensures Leq(Prefix(slot), y)
    ensures Leq(Prefix(slot), x) && !HasPrefix(x, slot) ==> Less(y, x)
  {
    var p := Prefix(slot);
    assert p[1..] == [slot % 256] && p[1..][1..] == [];
    assert y == [y[0]] + [y[1]] + y[2..];
    assert x[1..][0] == x[1] && y[1..][0] == y[1];
    if |y| == 2 {
      assert y == p;
    } else {
      assert y[1..][1..] == y[2..] && Less(p[1..], y[1..]);
    }
    if Less(p, x) && !HasPrefix(x, slot) {
      if x[0] == p[0] {
        assert Less(p[1..], x[1..]) && x[1] > p[1];
        assert Less(y[1..], x[1..]);
      }
      assert Less(y, x);
    }
  }

  /** raxSeek and raxNext on the tree as an ordered set: the least entry from a place on. */
  method Seek(tree: set<Bytes>, from: Bytes, strict: bool) returns (r: Option<Bytes>)
    ensures IsLeast(tree, from, strict, r)
  {
    hide Less;
    r := None;
    var left := tree;
    while left != {}
      invariant left <= tree
      invariant r.None? ==> forall e | e in tree - left :: if strict then !Less(from, e) else !Leq(from, e)
      invariant r.Some? ==> r.value in tree && (if strict then Less(from, r.value) else Leq(from, r.value))
      invariant r.Some? ==> forall e | e in tree - left && (if strict then Less(from, e) else Leq(from, e)) :: Leq(r.value, e)
      decreases |left|
    {
      var e :| e in left;
      left := left - {e};
      if (strict && Less(from, e)) || (!strict && Leq(from, e)) {
        if r.None? {
          r := Some(e);
        } else {
          Total(e, r.value);
          if Less(e, r.value) {
            forall x | Leq(r.value, x) ensures Leq(e, x) {
              if r.value != x {
                Transitive(e, r.value, x);
              }
            }
            r := Some(e);
          }
        }
      }
    }
  }

  class SlotIndex {
    const hash: Hash
    var db: set<Bytes>
    var tree: set<Bytes>                   // slots_to_keys
    const count: array<nat>                // slots_keys_count

    /** The tree holds the entries of the keys of the database, and the counters count them. */
    ghost predicate Valid()
      reads this, count
    {
      && count.Length == SLOTS
      && IsTree(hash, db, tree)
      && forall s | 0 <= s < SLOTS :: count[s] == |KeysOf(hash, db, s)|
    }

    constructor (hash: Hash)
      ensures Valid() && db == {} && this.hash == hash && fresh(count)
    {
      this.hash := hash;
      db, tree := {}, {};
      count := new nat[SLOTS](_ => 0);
      new;
      forall s | 0 <= s < SLOTS ensures KeysOf(hash, db, s) == {} {}
    }

    /** dbAdd with slotToKeyAdd. */
    method Add(key: Bytes)
      requires Valid() && key !in db
      modifies this`db, this`tree, count
      ensures Valid() && db == old(db) + {key}
    {
      hide Slot;
      var slot := Slot(hash, key);
      ghost var was := db;
      db := db + {key};
      count[slot] := count[slot] + 1;
      tree := tree + {Entry(hash, key)};
      AddOne(hash, was, key);
    }

    /** dbSyncDelete with slotToKeyDel. */
    method Delete(key: Bytes) returns (deleted: bool)
      requires Valid()
      modifies this`db, this`tree, count
      ensures Valid() && deleted == (key in old(db)) && db == old(db) - {key}
    {
      hide Slot;
      deleted := key in db;
      if deleted {
        var slot := Slot(hash, key);
        ghost var was := db;
        db := db - {key};
        RemoveOne(hash, was, key);
        count[slot] := count[slot] - 1;
        tree := tree - {Entry(hash, key)};
      } else {
        assert db == db - {key};
      }
    }

    /** emptyDb with slotToKeyFlush. */
    method Flush()
      requires Valid()
      modifies this`db, this`tree, count
      ensures Valid() && db == {}
    {
      db, tree := {}, {};
      var s := 0;
      while s < SLOTS
        invariant s <= SLOTS && db == {} && tree == {} && forall k | 0 <= k < s :: count[k] == 0
      {
        count[s] := 0;
        s := s + 1;
      }
      forall s | 0 <= s < SLOTS ensures KeysOf(hash, db, s) == {} {}
    }

    /** getKeysInSlot: the first keys of the slot, in lexicographic order. */
    method GetKeysInSlot(slot: nat, limit: nat) returns (keys: seq<Bytes>)
      requires Valid() && slot < SLOTS
      ensures |keys| <= limit && forall i | 0 <= i < |keys| :: keys[i] in KeysOf(hash, db, slot)
      ensures forall i, j | 0 <= i < j < |keys| :: Less(keys[i], keys[j])
      ensures |keys| < limit ==> forall k | k in KeysOf(hash, db, slot) :: k in keys
      ensures forall k, i | k in KeysOf(hash, db, slot) && k !in keys && 0 <= i < |keys| :: Less(keys[i], k)
    {
      hide Less, Slot, HasPrefix, Entry, Prefix;
      keys := [];
      var n: nat := limit;
      var cur := Seek(tree, Prefix(slot), false);
      FirstEntry(hash, db, tree, slot, cur);
      while n > 0 && cur.Some? && HasPrefix(cur.value, slot)
        invariant n + |keys| == limit && (cur.Some? ==> cur.value in tree && Leq(Prefix(slot), cur.value))
        invariant forall i | 0 <= i < |keys| :: keys[i] in KeysOf(hash, db, slot)
        invariant forall i, j | 0 <= i < j < |keys| :: Less(keys[i], keys[j])
        invariant SoFar(hash, db, slot, keys, cur)
        decreases n
      {
        var next := Seek(tree, cur.value, true);
        NextEntry(hash, db, tree, slot, keys, cur.value, next);
        keys := keys + [cur.value[2..]];
        cur := next;
        n := n - 1;
      }
      Stopped(hash, db, tree, slot, keys, cur, n);
    }

    /** delKeysInSlot: as long as the counter says so there is a key of the slot where the
        iterator is put, and in the end exactly the keys of the slot are gone. */
    method DelKeysInSlot(slot: nat) returns (removed: nat)
      requires Valid() && slot < SLOTS
      modifies this`db, this`tree, count
      ensures Valid() && db == old(db) - KeysOf(hash, old(db), slot)
      ensures removed == |KeysOf(hash, old(db), slot)|
    {
      hide Less, Slot, HasPrefix, Entry, Prefix;
      removed := 0;
      assert db == old(db) - (KeysOf(hash, old(db), slot) - KeysOf(hash, db, slot));
      while count[slot] != 0
        invariant Valid() && KeysOf(hash, db, slot) <= KeysOf(hash, old(db), slot)
        invariant db == old(db) - (KeysOf(hash, old(db), slot) - KeysOf(hash, db, slot))
        invariant removed + count[slot] == |KeysOf(hash, old(db), slot)|
        decreases count[slot]
      {
        ghost var was := db;
        var cur := Seek(tree, Prefix(slot), false);
        SeekHits(hash, db, tree, slot, cur);
        var key := cur.value[2..];
        RemoveOne(hash, db, key);
        var _ := Delete(key);
        assert KeysOf(hash, db, slot) == KeysOf(hash, was, slot) - {key};
        removed := removed + 1;
      }
      assert KeysOf(hash, db, slot) == {};
    }
  }

  lemma SeekHits(hash: Hash, db: set<Bytes>, tree: set<Bytes>, slot: nat, cur: Option<Bytes>)
    requires slot < SLOTS && IsTree(hash, db, tree) && KeysOf(hash, db, slot) != {}
    requires IsLeast(tree, Prefix(slot), false, cur)
    ensures cur.Some? && |cur.value| >= 2 && cur.value[2..] in KeysOf(hash, db, slot)
  {
    hide Less, Slot, HasPrefix, Entry, Prefix;
    var k :| k in KeysOf(hash, db, slot);
    var e := Entry(hash, k);
    assert e in tree;
    EntryOf(hash, k, slot);
    PrefixOrder(e, e, slot);
    LongEntry(hash, db, tree, cur.value);
    PrefixOrder(cur.value, e, slot);
    Total(e, cur.value);
    var _ := EntryKey(hash, db, tree, slot, cur.value);
  }

  lemma AddOne(hash: Hash, db: set<Bytes>, key: Bytes)
    requires key !in db
    ensures forall s :: |KeysOf(hash, db + {key}, s)| == |KeysOf(hash, db, s)| + (if s == Slot(hash, key) then 1 else 0)
  {
    forall s ensures |KeysOf(hash, db + {key}, s)| == |KeysOf(hash, db, s)| + (if s == Slot(hash, key) then 1 else 0) {
      if s == Slot(hash, key) {
        assert KeysOf(hash, db + {key}, s) == KeysOf(hash, db, s) + {key};
      } else {
        assert KeysOf(hash, db + {key}, s) == KeysOf(hash, db, s);
      }
    }
  }

  lemma RemoveOne(hash: Hash, db: set<Bytes>, key: Bytes)
    requires key in db
    ensures forall s :: |KeysOf(hash, db, s)| == |KeysOf(hash, db - {key}, s)| + (if s == Slot(hash, key) then 1 else 0)
    ensures (set k | k in db - {key} :: Entry(hash, k)) == (set k | k in db :: Entry(hash, k)) - {Entry(hash, key)}
  {
    AddOne(hash, db - {key}, key);
    assert db - {key} + {key} == db;
    forall k | k in db && Entry(hash, k) == Entry(hash, key) ensures k == key {
      EntryOf(hash, k, 0);
      EntryOf(hash, key, 0);
    }
  }

  // -------------------------------------------------------------------- the iteration

  /** The keys collected so far are those of the slot before the iterator. */
  ghost predicate SoFar(hash: Hash, db: set<Bytes>, slot: nat, keys: seq<Bytes>, cur: Option<Bytes>)
    requires slot < SLOTS
  {
    forall k | k in KeysOf(hash, db, slot) :: k in keys <==> cur.None? || Less(Entry(hash, k), cur.value)
  }

  ghost predicate IsTree(hash: Hash, db: set<Bytes>, tree: set<Bytes>) {
    tree == (set k | k in db :: Entry(hash, k))
  }

  /** What Seek returns. */
  ghost predicate IsLeast(tree: set<Bytes>, from: Bytes, strict: bool, r: Option<Bytes>) {
    match r
    case None => forall e | e in tree :: if strict then !Less(from, e) else !Leq(from, e)
    case Some(v) =>
      && v in tree && (if strict then Less(from, v) else Leq(from, v))
      && forall e | e in tree && (if strict then Less(from, e) else Leq(from, e)) :: Leq(v, e)
  }

  lemma FirstEntry(hash: Hash, db: set<Bytes>, tree: set<Bytes>, slot: nat, cur: Option<Bytes>)
    requires slot < SLOTS && IsTree(hash, db, tree) && IsLeast(tree, Prefix(slot), false, cur)
    ensures SoFar(hash, db, slot, [], cur)
  {
    hide Less, Slot, HasPrefix, Entry, Prefix;
    forall k | k in KeysOf(hash, db, slot) ensures cur.Some? && !Less(Entry(hash, k), cur.value) {
      assert Entry(hash, k) in tree;
      EntryOf(hash, k, slot);
      PrefixOrder(Entry(hash, k), Entry(hash, k), slot);
      if cur.Some? {
        Total(Entry(hash, k), cur.value);
      }
    }
  }

  lemma EntryKey(hash: Hash, db: set<Bytes>, tree: set<Bytes>, slot: nat, e: Bytes) returns (k: Bytes)
    requires slot < SLOTS && IsTree(hash, db, tree) && e in tree && HasPrefix(e, slot)
    ensures k == e[2..] && k in KeysOf(hash, db, slot) && Entry(hash, k) == e
  {
    hide Slot, HasPrefix, Entry, Prefix;
    k :| k in db && Entry(hash, k) == e;
    EntryOf(hash, k, slot);
  }

  lemma NextEntry(hash: Hash, db: set<Bytes>, tree: set<Bytes>, slot: nat, keys: seq<Bytes>, cur: Bytes, next: Option<Bytes>)
    requires slot < SLOTS && IsTree(hash, db, tree) && cur in tree && HasPrefix(cur, slot)
    requires forall i | 0 <= i < |keys| :: keys[i] in KeysOf(hash, db, slot)
    requires SoFar(hash, db, slot, keys, Some(cur)) && IsLeast(tree, cur, true, next)
    ensures |cur| >= 2 && cur[2..] in KeysOf(hash, db, slot)
    ensures forall i | 0 <= i < |keys| :: Less(keys[i], cur[2..])
    ensures SoFar(hash, db, slot, keys + [cur[2..]], next)
    ensures next.Some? ==> Leq(Prefix(slot), next.value)
  {
    hide Less, Slot, HasPrefix, Entry, Prefix;
    var k0 := EntryKey(hash, db, tree, slot, cur);
    EntryOf(hash, k0, slot);
    forall i | 0 <= i < |keys| ensures Less(keys[i], k0) {
      assert keys[i] in keys;
      SamePrefix(hash, keys[i], k0);
    }
    forall k | k in KeysOf(hash, db, slot)
      ensures k in keys + [k0] <==> next.None? || Less(Entry(hash, k), next.value)
    {
      var e := Entry(hash, k);
      assert e in tree;
      Total(e, cur);
      EntryOf(hash, k, slot);
      if next.Some? {
        Total(e, next.value);
        if Less(e, cur) {
          Transitive(e, cur, next.value);
        }
      }
    }
    if next.Some? {
      PrefixOrder(cur, cur, slot);
      if Prefix(slot) != cur {
        Transitive(Prefix(slot), cur, next.value);
      }
    }
  }

  lemma Stopped(hash: Hash, db: set<Bytes>, tree: set<Bytes>, slot: nat, keys: seq<Bytes>, cur: Option<Bytes>, n: nat)
    requires slot < SLOTS && IsTree(hash, db, tree) && SoFar(hash, db, slot, keys, cur)
    requires cur.Some? ==> cur.value in tree && Leq(Prefix(slot), cur.value)
    requires n == 0 || cur.None? || !HasPrefix(cur.value, slot)
    requires forall i | 0 <= i < |keys| :: keys[i] in KeysOf(hash, db, slot)
    ensures n > 0 ==> forall k | k in KeysOf(hash, db, slot) :: k in keys
    ensures forall k, i | k in KeysOf(hash, db, slot) && k !in keys && 0 <= i < |keys| :: Less(keys[i], k)
  {
    hide Less, Slot, HasPrefix, Entry, Prefix;
    forall k | n > 0 && k in KeysOf(hash, db, slot) ensures k in keys {
      EntryOf(hash, k, slot);
      if cur.Some? {
        LongEntry(hash, db, tree, cur.value);
        PrefixOrder(cur.value, Entry(hash, k), slot);
      }
    }
    forall k, i | k in KeysOf(hash, db, slot) && k !in keys && 0 <= i < |keys| ensures Less(keys[i], k) {
      assert keys[i] in keys;
      var x, e := Entry(hash, keys[i]), Entry(hash, k);
      Total(e, cur.value);
      if e != cur.value {
        Transitive(x, cur.value, e);
      }
      SamePrefix(hash, keys[i], k);
    }
  }

  lemma LongEntry(hash: Hash, db: set<Bytes>, tree: set<Bytes>, e: Bytes)
    requires IsTree(hash, db, tree) && e in tree
    ensures |e| >= 2
  {
  }
}
