/** Rewriting lists, sets and hashes as commands of at most so many items. */
module AofBatch {
  import opened Strings
  import opened AofFormat
  import opened AofLoader

  /** An item is one argument for a list or a set, a field and a value for a hash. */
  type Item = seq<string>

  function Flat(items: seq<Item>): Argv {
    if items == [] then [] else items[0] + Flat(items[1..])
  }

  ghost predicate Wide(items: seq<Item>, width: nat) {
    forall i | 0 <= i < |items| :: |items[i]| == width
  }

  function Min(a: nat, b: nat): nat {
    if a <= b then a else b
  }

  /** The commands meant: chunk after chunk. */
  function Batches(name: string, key: string, items: seq<Item>, limit: nat): seq<Argv>
    requires limit > 0
    decreases |items|
  {
    if items == [] then []
    else
      var n := Min(limit, |items|);
      [[name, key] + Flat(items[..n])] + Batches(name, key, items[n..], limit)
  }

  // ------------------------------------------------------------------------ writing

  lemma {:induction false} FlatLength(items: seq<Item>, width: nat)
    requires Wide(items, width)
    ensures |Flat(items)| == |items| * width
    decreases |items|
  {
    if items != [] {
      FlatLength(items[1..], width);
      assert |items| * width == width + (|items| - 1) * width;
    }
  }

  lemma {:induction false} BulksConcat(a: Argv, b: Argv)
    ensures Bulks(a + b) == Bulks(a) + Bulks(b)
    decreases |a|
  {
    hide Bulk;
    if a == [] {
      assert a + b == b;
    } else {
      assert (a + b)[1..] == a[1..] + b;
      BulksConcat(a[1..], b);
      assert Bulk(a[0]) + (Bulks(a[1..]) + Bulks(b)) == Bulks(a) + Bulks(b);
    }
  }

  /** What is still to be written, when the current command lacks `left` items. */
  ghost function Remaining(name: string, key: string, items: seq<Item>, limit: nat, left: nat): string
    requires limit > 0 && left <= |items|
  {
    Bulks(Flat(items[..left])) + PrintAll(Batches(name, key, items[left..], limit))
  }

  function Header(name: string, key: string, count: nat): string {
    "*" + Dec(count) + CRLF + Bulk(name) + Bulk(key)
  }

  /** The header of a command, with the count of all that will follow. */
  lemma StartCommand(name: string, key: string, items: seq<Item>, limit: nat, width: nat)
    requires limit > 0 && items != [] && Wide(items, width)
    ensures var n := Min(limit, |items|);
            Remaining(name, key, items, limit, 0) == Header(name, key, 2 + n * width) + Remaining(name, key, items, limit, n)
  {
    hide Bulk, Dec, PrintAll;
    var n := Min(limit, |items|);
    var argv := [name, key] + Flat(items[..n]);
    FlatLength(items[..n], width);
    BulksConcat([name, key], Flat(items[..n]));
    TwoBulks(name, key);
    NoItems();
    assert items[..0] == [] && items[0..] == items;
    var rest := Batches(name, key, items[n..], limit);
    var all := Batches(name, key, items, limit);
    assert all == [argv] + rest;
    FirstOf(all);
    assert all[0] == argv && all[1..] == rest;
    Regroup("*" + Dec(|argv|) + CRLF, Bulk(name) + Bulk(key), Bulks(Flat(items[..n])), PrintAll(rest));
    assert "*" + Dec(|argv|) + CRLF + (Bulk(name) + Bulk(key)) == Header(name, key, 2 + n * width);
    assert "" + PrintAll(all) == PrintAll(all);
  }

  lemma FirstOf(log: seq<Argv>)
    requires log != []
    ensures PrintAll(log) == "*" + Dec(|log[0]|) + CRLF + Bulks(log[0]) + PrintAll(log[1..])
  {
  }

  lemma Regroup(a: string, b: string, c: string, d: string)
    ensures a + (b + c) + d == (a + b) + (c + d)
  {
  }

  lemma TwoBulks(name: string, key: string)
    ensures Bulks([name, key]) == Bulk(name) + Bulk(key)
  {
    hide Bulk;
    assert [name, key][1..] == [key] && [key][1..] == [];
    assert Bulks([key]) == Bulk(key) + "";
  }

  lemma NoItems()
    ensures Flat([]) == [] && Bulks([]) == ""
  {
  }

  lemma OneItem(name: string, key: string, items: seq<Item>, limit: nat, left: nat)
    requires limit > 0 && 0 < left <= |items|
    ensures Remaining(name, key, items, limit, left) == Bulks(items[0]) + Remaining(name, key, items[1..], limit, left - 1)
  {
    hide PrintAll, Batches;
    var part := items[..left];
    assert part[0] == items[0] && part[1..] == items[1..][..left - 1];
    BulksConcat(items[0], Flat(part[1..]));
    assert items[1..][left - 1..] == items[left..];
  }

  /** rewriteListObject, rewriteSetObject and rewriteHashObject: a count is written before its
      items are, and it is right. */
  method Rewrite(name: string, key: string, items: seq<Item>, width: nat, limit: nat) returns (out: string)
    requires limit > 0 && Wide(items, width)
    ensures out == PrintAll(Batches(name, key, items, limit))
  {
    hide Bulk, Dec, Remaining, PrintAll, Batches, Header;
    out := "";
    var count: nat, left: nat, i := 0, |items|, 0;
    ghost var open := 0;
    Begin(name, key, items, limit);
    while i < |items|
      invariant i <= |items| && left == |items| - i && count < limit && open <= left
      invariant count == 0 ==> open == 0
      invariant count > 0 ==> open == Min(limit, left + count) - count
      invariant out + Remaining(name, key, items[i..], limit, open) == PrintAll(Batches(name, key, items, limit))
    {
      ghost var rest := items[i..];
      assert Wide(rest, width);
      if count == 0 {
        var cmdItems := if left > limit then limit else left;
        out := out + Header(name, key, 2 + cmdItems * width);
        StartCommand(name, key, rest, limit, width);
        open := Min(limit, left);
      }
      OneItem(name, key, rest, limit, open);
      assert rest[1..] == items[i + 1..] && rest[0] == items[i];
      out := out + Bulks(items[i]);
      open := open - 1;
      count := count + 1;
      if count == limit {
        count := 0;
      }
      left := left - 1;
      i := i + 1;
    }
    Finish(name, key, items[i..], limit, open);
  }

  lemma Begin(name: string, key: string, items: seq<Item>, limit: nat)
    requires limit > 0
    ensures items[0..] == items && Remaining(name, key, items, limit, 0) == PrintAll(Batches(name, key, items, limit))
  {
    hide PrintAll, Batches;
    assert items[..0] == [] && items[0..] == items;
    NoItems();
  }

  lemma Finish(name: string, key: string, items: seq<Item>, limit: nat, open: nat)
    requires limit > 0 && items == [] && open == 0
    ensures Remaining(name, key, items, limit, open) == ""
  {
  }

  // ------------------------------------------------------------------------ replaying

  lemma {:induction false} FlatSplit(items: seq<Item>, n: nat)
    requires n <= |items|
    ensures Flat(items) == Flat(items[..n]) + Flat(items[n..])
    decreases n
  {
    if n == 0 {
      assert items[..0] == [] && items[0..] == items;
    } else {
      FlatSplit(items[1..], n - 1);
      assert items[..n][1..] == items[1..][..n - 1] && items[1..][n - 1..] == items[n..];
      assert items[..n][0] == items[0];
    }
  }

  /** No command exceeds the limit, and none is empty. */
  lemma {:induction false} BatchSizes(name: string, key: string, items: seq<Item>, width: nat, limit: nat)
    requires limit > 0 && Wide(items, width)
    ensures forall i | 0 <= i < |Batches(name, key, items, limit)| ::
              var argv := Batches(name, key, items, limit)[i];
              |argv| >= 2 && argv[0] == name && argv[1] == key && |argv| <= 2 + limit * width
    ensures items != [] ==> Batches(name, key, items, limit) != []
    decreases |items|
  {
    if items != [] {
      var n := Min(limit, |items|);
      FlatLength(items[..n], width);
      assert n * width <= limit * width by { Grows(n, limit, width); }
      BatchSizes(name, key, items[n..], width, limit);
    }
  }

  lemma Grows(a: nat, b: nat, w: nat)
    requires a <= b
    ensures a * w <= b * w
  {
    assert b * w == a * w + (b - a) * w;
  }

  function PushAll(l: seq<string>, log: seq<Argv>): seq<string>
    requires forall i | 0 <= i < |log| :: |log[i]| >= 2
    decreases |log|
  {
    if log == [] then l else PushAll(l + log[0][2..], log[1..])
  }

  /** HMSET: field and value in turn. */
  function SetFields(h: map<string, string>, args: Argv): map<string, string>
    decreases |args|
  {
    if |args| < 2 then h else SetFields(h[args[0] := args[1]], args[2..])
  }

  function SetAllFields(h: map<string, string>, log: seq<Argv>): map<string, string>
    requires forall i | 0 <= i < |log| :: |log[i]| >= 2
    decreases |log|
  {
    if log == [] then h else SetAllFields(SetFields(h, log[0][2..]), log[1..])
  }

  function AddAll(s: set<string>, log: seq<Argv>): set<string>
    requires forall i | 0 <= i < |log| :: |log[i]| >= 2
    decreases |log|
  {
    if log == [] then s else AddAll(s + (set x | x in log[0][2..]), log[1..])
  }

  /** RPUSH: the pushed elements in the end are the list, in its order. */
  lemma {:induction false} ListRebuilt(key: string, items: seq<Item>, limit: nat, l: seq<string>)
    requires limit > 0 && Wide(items, 1)
    ensures forall i | 0 <= i < |Batches("RPUSH", key, items, limit)| :: |Batches("RPUSH", key, items, limit)[i]| >= 2
    ensures PushAll(l, Batches("RPUSH", key, items, limit)) == l + Flat(items)
    decreases |items|
  {
    BatchSizes("RPUSH", key, items, 1, limit);
    if items != [] {
      var n := Min(limit, |items|);
      var first := ["RPUSH", key] + Flat(items[..n]);
      FlatSplit(items, n);
      assert first[2..] == Flat(items[..n]);
      ListRebuilt(key, items[n..], limit, l + first[2..]);
      assert Batches("RPUSH", key, items, limit)[1..] == Batches("RPUSH", key, items[n..], limit);
      assert l + first[2..] + Flat(items[n..]) == l + Flat(items);
    }
  }

  /** SADD: the added members are the set. */
  lemma {:induction false} SetRebuilt(key: string, items: seq<Item>, limit: nat, s: set<string>)
    requires limit > 0 && Wide(items, 1)
    ensures forall i | 0 <= i < |Batches("SADD", key, items, limit)| :: |Batches("SADD", key, items, limit)[i]| >= 2
    ensures AddAll(s, Batches("SADD", key, items, limit)) == s + (set x | x in Flat(items))
    decreases |items|
  {
    BatchSizes("SADD", key, items, 1, limit);
    if items != [] {
      var n := Min(limit, |items|);
      var first := ["SADD", key] + Flat(items[..n]);
      FlatSplit(items, n);
      assert first[2..] == Flat(items[..n]);
      SetRebuilt(key, items[n..], limit, s + (set x | x in first[2..]));
      assert Batches("SADD", key, items, limit)[1..] == Batches("SADD", key, items[n..], limit);
    }
  }

  lemma {:induction false} FieldsConcat(h: map<string, string>, a: Argv, b: Argv)
    requires |a| % 2 == 0
    ensures SetFields(h, a + b) == SetFields(SetFields(h, a), b)
    decreases |a|
  {
    if a == [] {
      assert a + b == b;
    } else {
      assert (a + b)[2..] == a[2..] + b && (a + b)[0] == a[0] && (a + b)[1] == a[1];
      FieldsConcat(h[a[0] := a[1]], a[2..], b);
    }
  }

  /** HMSET: no pair is torn apart by a command boundary. */
  lemma {:induction false} HashRebuilt(key: string, items: seq<Item>, limit: nat, h: map<string, string>)
    requires limit > 0 && Wide(items, 2)
    ensures forall i | 0 <= i < |Batches("HMSET", key, items, limit)| :: |Batches("HMSET", key, items, limit)[i]| >= 2
    ensures SetAllFields(h, Batches("HMSET", key, items, limit)) == SetFields(h, Flat(items))
    decreases |items|
  {
    hide SetFields;
    BatchSizes("HMSET", key, items, 2, limit);
    if items != [] {
      var n := Min(limit, |items|);
      var first := ["HMSET", key] + Flat(items[..n]);
      FlatSplit(items, n);
      FlatLength(items[..n], 2);
      assert first[2..] == Flat(items[..n]);
      FieldsConcat(h, first[2..], Flat(items[n..]));
      HashRebuilt(key, items[n..], limit, SetFields(h, first[2..]));
      assert Batches("HMSET", key, items, limit)[1..] == Batches("HMSET", key, items[n..], limit);
    } else {
      NoFields(h);
    }
  }

  lemma NoFields(h: map<string, string>)
    ensures SetFields(h, []) == h
  {
  }

  lemma OtherFields(items: seq<Item>, rest: map<string, string>, k: string)
    requires items != [] && Wide(items, 2) && (forall i, j | 0 <= i < j < |items| :: items[i][0] != items[j][0])
    requires k in rest <==> exists i | 0 <= i < |items| :: items[i][0] == k
    ensures k in rest - {items[0][0]} <==> exists i | 0 <= i < |items[1..]| :: items[1..][i][0] == k
  {
    if k in rest && k != items[0][0] {
      var i :| 0 <= i < |items| && items[i][0] == k;
      assert items[1..][i - 1][0] == k;
    }
    if i :| 0 <= i < |items[1..]| && items[1..][i][0] == k {
      assert items[i + 1][0] == k;
    }
  }

  /** The pairs of a hash, in any order, rebuild it. */
  lemma {:induction false} PairsRebuild(h: map<string, string>, items: seq<Item>, rest: map<string, string>)
    requires Wide(items, 2) && (forall i, j | 0 <= i < j < |items| :: items[i][0] != items[j][0])
    requires forall i | 0 <= i < |items| :: items[i][0] !in h
    requires forall k :: k in rest <==> exists i | 0 <= i < |items| :: items[i][0] == k
    requires forall i | 0 <= i < |items| :: items[i][0] in rest && rest[items[i][0]] == items[i][1]
    ensures SetFields(h, Flat(items)) == h + rest
    decreases |items|
  {
    hide SetFields, Flat;
    if items == [] {
      NoItems();
      NoFields(h);
      assert rest == map[];
    } else {
      var f, v := items[0][0], items[0][1];
      FieldStep(h, items);
      forall k ensures k in rest - {f} <==> exists i | 0 <= i < |items[1..]| :: items[1..][i][0] == k {
        OtherFields(items, rest, k);
      }
      PairsRebuild(h[f := v], items[1..], rest - {f});
      assert h[f := v] + (rest - {f}) == h + rest;
    }
  }

  lemma FieldStep(h: map<string, string>, items: seq<Item>)
    requires items != [] && Wide(items, 2)
    ensures SetFields(h, Flat(items)) == SetFields(h[items[0][0] := items[0][1]], Flat(items[1..]))
  {
    var flat := Flat(items);
    assert flat[0] == items[0][0] && flat[1] == items[0][1] && flat[2..] == Flat(items[1..]);
  }

  // ----------------------------------------------------------------- through the file

  /** The rewritten object, loaded: the loader runs exactly the batches. */
  lemma BatchesLoad(name: string, key: string, items: seq<Item>, width: nat, limit: nat, known: set<string>)
    requires limit > 0 && Wide(items, width) && items != []
    requires Lower(name) in known && Lower(name) != "multi" && Lower(name) != "exec"
    requires forall i | 0 <= i < |Batches(name, key, items, limit)| :: Printable(Batches(name, key, items, limit)[i])
    ensures var log := Batches(name, key, items, limit);
            Load(PrintAll(log), true, known) == Result(Client(false, [], log), Loaded)
  {
    hide Lower, PrintAll, Batches, Load, Printable;
    var log := Batches(name, key, items, limit);
    BatchSizes(name, key, items, width, limit);
    PlainRuns(FRESH, log);
    RoundTrip(log, known);
    assert [] + log == log;
  }
}
