/**
 * Rewriting a value as commands: lists, sets, sorted sets and hashes are written
 * as a series of variadic commands of at most 64 items each, and running those
 * commands on a database without the key gives back the value.
 *
 * An item is what the loop writes for one element: one argument for a list or a
 * set, the score and the member for a sorted set, the field and the value for a
 * hash. A score is the text written for it.
 */
module AofRewrite {
  import opened AofLog
  import opened AofReplay

  const AOF_REWRITE_ITEMS_PER_CMD := 64

  type Item = seq<string>

  datatype Kind = List | Set | SortedSet | Hash

  function Verb(kind: Kind): string {
    match kind
    case List => "RPUSH"
    case Set => "SADD"
    case SortedSet => "ZADD"
    case Hash => "HMSET"
  }

  function Width(kind: Kind): nat {
    if kind == List || kind == Set then 1 else 2
  }

  predicate ItemsOf(kind: Kind, items: seq<Item>) {
    forall i :: 0 <= i < |items| ==> |items[i]| == Width(kind)
  }

  function Min(a: nat, b: nat): nat {
    if a < b then a else b
  }

  // ---------------------------------------------------------------------
  // What the commands are
  // ---------------------------------------------------------------------

  function Flatten(items: seq<Item>): seq<string> {
    if items == [] then [] else items[0] + Flatten(items[1..])
  }

  /** The command that adds the given items. */
  function Adding(kind: Kind, key: string, items: seq<Item>): Command {
    [Verb(kind), key] + Flatten(items)
  }

  function Chunks(kind: Kind, key: string, items: seq<Item>): seq<Command> {
    if items == [] then []
    else
      var n := Min(AOF_REWRITE_ITEMS_PER_CMD, |items|);
      [Adding(kind, key, items[..n])] + Chunks(kind, key, items[n..])
  }

  /** What is still to be written when the current command already holds count items. */
  function Pending(kind: Kind, key: string, items: seq<Item>, count: nat): string
    requires count < AOF_REWRITE_ITEMS_PER_CMD
  {
    if count == 0 then EncodeAll(Chunks(kind, key, items))
    else
      var n := Min(AOF_REWRITE_ITEMS_PER_CMD - count, |items|);
      EncodeArgs(Flatten(items[..n])) + EncodeAll(Chunks(kind, key, items[n..]))
  }

  /** The start of a command whose header announces the given number of items. */
  function Opening(kind: Kind, key: string, n: nat): string {
    Line('*', 2 + n * Width(kind)) + Bulk(Verb(kind)) + Bulk(key)
  }

  lemma {:induction false} FlattenLength(kind: Kind, items: seq<Item>)
    requires ItemsOf(kind, items)
    ensures |Flatten(items)| == |items| * Width(kind)
  {
    if items != [] { FlattenLength(kind, items[1..]); }
  }

  lemma {:induction false} EncodeArgsAppend(a: seq<string>, b: seq<string>)
    ensures EncodeArgs(a + b) == EncodeArgs(a) + EncodeArgs(b)
  {
    hide Bulk;
    if a == [] {
      assert a + b == b;
    } else {
      assert (a + b)[1..] == a[1..] + b;
      EncodeArgsAppend(a[1..], b);
    }
  }

  lemma NameAndKey(verb: string, key: string)
    ensures EncodeArgs([verb, key]) == Bulk(verb) + Bulk(key)
  {
    hide Bulk;
    assert [verb, key][1..] == [key] && [key][1..] == [];
    assert EncodeArgs([key]) == Bulk(key) + EncodeArgs([]);
  }

  lemma AddingOpens(kind: Kind, key: string, items: seq<Item>)
    requires ItemsOf(kind, items)
    ensures Encode(Adding(kind, key, items)) == Opening(kind, key, |items|) + EncodeArgs(Flatten(items))
  {
    hide Bulk, Line, Flatten, EncodeArgs, Verb;
    FlattenLength(kind, items);
    var args := Flatten(items);
    NameAndKey(Verb(kind), key);
    EncodeArgsAppend([Verb(kind), key], args);
    Assoc(Line('*', 2 + |args|), Bulk(Verb(kind)), Bulk(key), EncodeArgs(args));
  }

  lemma Assoc(a: string, b: string, c: string, d: string)
    ensures a + ((b + c) + d) == (a + b + c) + d
  {
  }

  /** Writing one more item, in a command already begun. */
  lemma WriteInside(kind: Kind, key: string, items: seq<Item>, count: nat)
    requires items != [] && 0 < count < AOF_REWRITE_ITEMS_PER_CMD
    ensures var c := if count + 1 == AOF_REWRITE_ITEMS_PER_CMD then 0 else count + 1;
      Pending(kind, key, items, count) == EncodeArgs(items[0]) + Pending(kind, key, items[1..], c)
  {
    hide EncodeArgs, EncodeAll, Chunks;
    var n := Min(AOF_REWRITE_ITEMS_PER_CMD - count, |items|);
    assert items[..n][1..] == items[1..][..n - 1];
    assert items[n..] == items[1..][n - 1..];
    EncodeArgsAppend(items[0], Flatten(items[..n][1..]));
    if n == 1 {
      assert items[..n][1..] == [];
      NoArgs();
      if count + 1 != AOF_REWRITE_ITEMS_PER_CMD { assert items[1..] == [] && items[n..] == []; }
    }
  }

  lemma NoArgs()
    ensures EncodeArgs([]) == "" && Flatten([]) == []
  {
  }

  lemma Regroup(a: string, b: string, c: string, d: string)
    ensures (a + (b + c)) + d == (a + b) + (c + d)
  {
  }

  /** Writing the first item of a command, after its opening. */
  lemma WriteFirst(kind: Kind, key: string, items: seq<Item>)
    requires items != [] && ItemsOf(kind, items)
    ensures Pending(kind, key, items, 0) ==
      Opening(kind, key, Min(AOF_REWRITE_ITEMS_PER_CMD, |items|)) + EncodeArgs(items[0]) +
      Pending(kind, key, items[1..], 1)
  {
    hide EncodeArgs, Encode, Opening;
    var n := Min(AOF_REWRITE_ITEMS_PER_CMD, |items|);
    AddingOpens(kind, key, items[..n]);
    assert items[..n][1..] == items[1..][..n - 1];
    assert items[n..] == items[1..][n - 1..];
    EncodeArgsAppend(items[0], Flatten(items[..n][1..]));
    Regroup(Opening(kind, key, n), EncodeArgs(items[0]), EncodeArgs(Flatten(items[..n][1..])),
      EncodeAll(Chunks(kind, key, items[n..])));
  }

  /** What one turn of the loop writes. */
  function Written(kind: Kind, key: string, items: seq<Item>, count: nat): string
    requires items != []
  {
    (if count == 0 then Opening(kind, key, Min(AOF_REWRITE_ITEMS_PER_CMD, |items|)) else "") + EncodeArgs(items[0])
  }

  lemma WriteStep(kind: Kind, key: string, items: seq<Item>, count: nat, out: string)
    requires items != [] && ItemsOf(kind, items) && count < AOF_REWRITE_ITEMS_PER_CMD
    ensures var c := if count + 1 == AOF_REWRITE_ITEMS_PER_CMD then 0 else count + 1;
      out + Pending(kind, key, items, count) ==
      out + Written(kind, key, items, count) + Pending(kind, key, items[1..], c)
  {
    hide Pending, EncodeArgs, Opening;
    if count == 0 { WriteFirst(kind, key, items); } else { WriteInside(kind, key, items, count); }
  }

  /**
   * The loop shared by rewriteListObject, rewriteSetObject, rewriteSortedSetObject
   * and rewriteHashObject. The items come in the order the iterator gives them.
   */
  method RewriteItems(kind: Kind, key: string, elements: seq<Item>) returns (out: string)
    requires ItemsOf(kind, elements)
    ensures out == EncodeAll(Chunks(kind, key, elements))
  {
    hide Pending, Chunks, EncodeAll, EncodeArgs, Opening, Width;
    out := "";
    var count, items := 0, |elements|;
    PendingAll(kind, key, elements);
    for i := 0 to |elements|
      invariant 0 <= count < AOF_REWRITE_ITEMS_PER_CMD && items == |elements| - i
      invariant out + Pending(kind, key, elements[i..], count) == EncodeAll(Chunks(kind, key, elements))
    {
      WriteStep(kind, key, elements[i..], count, out);
      assert elements[i..][1..] == elements[i + 1..];
      var written := "";
      if count == 0 {
        var cmdItems := if items > AOF_REWRITE_ITEMS_PER_CMD then AOF_REWRITE_ITEMS_PER_CMD else items;
        written := Opening(kind, key, cmdItems);
      }
      out := out + (written + EncodeArgs(elements[i]));
      count := count + 1;
      if count == AOF_REWRITE_ITEMS_PER_CMD { count := 0; }
      items := items - 1;
    }
    PendingNothing(kind, key, count);
  }

  lemma PendingAll(kind: Kind, key: string, items: seq<Item>)
    ensures Pending(kind, key, items, 0) == EncodeAll(Chunks(kind, key, items))
  {
  }

  lemma PendingNothing(kind: Kind, key: string, count: nat)
    requires count < AOF_REWRITE_ITEMS_PER_CMD
    ensures Pending(kind, key, [], count) == ""
  {
    NoArgs();
  }

  // ---------------------------------------------------------------------
  // What running the commands does
  // ---------------------------------------------------------------------

  datatype Value =
    | ListValue(elements: seq<string>)
    | SetValue(members: set<string>)
    | SortedSetValue(scores: map<string, string>)
    | HashValue(fields: map<string, string>)

  type Database = map<string, Value>

  function KindOf(v: Value): Kind {
    match v
    case ListValue(_) => List
    case SetValue(_) => Set
    case SortedSetValue(_) => SortedSet
    case HashValue(_) => Hash
  }

  function Empty(kind: Kind): Value {
    match kind
    case List => ListValue([])
    case Set => SetValue({})
    case SortedSet => SortedSetValue(map[])
    case Hash => HashValue(map[])
  }

  function Put(v: Value, item: Item): (r: Value)
    requires |item| == Width(KindOf(v))
    ensures KindOf(r) == KindOf(v)
  {
    match v
    case ListValue(elements) => ListValue(elements + [item[0]])
    case SetValue(members) => SetValue(members + {item[0]})
    case SortedSetValue(scores) => SortedSetValue(scores[item[1] := item[0]])
    case HashValue(fields) => HashValue(fields[item[0] := item[1]])
  }

  function PutAll(v: Value, items: seq<Item>): (r: Value)
    requires ItemsOf(KindOf(v), items)
    ensures KindOf(r) == KindOf(v)
    decreases |items|
  {
    if items == [] then v else PutAll(Put(v, items[0]), items[1..])
  }

  /** The arguments of a variadic command, taken so many at a time. */
  function Grouped(args: seq<string>, width: nat): (items: seq<Item>)
    requires width > 0
    ensures forall i :: 0 <= i < |items| ==> |items[i]| == width
  {
    if |args| < width then [] else [args[..width]] + Grouped(args[width..], width)
  }

  /** The entry of the command table that adds items to a value of the kind. */
  function TableName(kind: Kind): string {
    match kind
    case List => "rpush"
    case Set => "sadd"
    case SortedSet => "zadd"
    case Hash => "hmset"
  }

  /** The kind of value a command works on. */
  predicate Adds(c: Command, kind: Kind) {
    |c| > 2 && IsNamed(c, TableName(kind)) && (|c| - 2) % Width(kind) == 0
  }

  /** The name written for a kind is looked up as its command, and as no other. */
  lemma VerbIsLookedUp(kind: Kind, c: Command, other: Kind)
    requires c != [] && c[0] == Verb(kind)
    ensures IsNamed(c, TableName(other)) <==> other == kind
  {
    assert Lower('R') == 'r' && Lower('S') == 's' && Lower('Z') == 'z' && Lower('H') == 'h';
    if other != kind && |Verb(kind)| == |TableName(other)| { assert Lower(c[0][0]) != TableName(other)[0]; }
  }

  function AddTo(db: Database, c: Command, kind: Kind): Database
    requires Adds(c, kind)
  {
    var v := if c[1] in db then db[c[1]] else Empty(kind);
    if KindOf(v) != kind then db else db[c[1] := PutAll(v, Grouped(c[2..], Width(kind)))]
  }

  /** RPUSH, SADD, ZADD and HMSET; a command with an error changes nothing. */
  function Run(db: Database, c: Command): Database {
    if Adds(c, List) then AddTo(db, c, List)
    else if Adds(c, Set) then AddTo(db, c, Set)
    else if Adds(c, SortedSet) then AddTo(db, c, SortedSet)
    else if Adds(c, Hash) then AddTo(db, c, Hash)
    else db
  }

  /** A command without items, with half an item, or for a key of another kind changes nothing. */
  lemma ErrorChangesNothing(db: Database, c: Command, kind: Kind)
    requires c != [] && IsNamed(c, TableName(kind))
    requires |c| <= 2 || (|c| % 2 == 1 && kind in {SortedSet, Hash}) || (c[1] in db && KindOf(db[c[1]]) != kind)
    ensures Run(db, c) == db
  {
    hide IsNamed, TableName;
    forall k: Kind | IsNamed(c, TableName(k)) ensures k == kind { NamesDiffer(c, kind, k); }
  }

  lemma NamesDiffer(c: Command, a: Kind, b: Kind)
    requires IsNamed(c, TableName(a)) && IsNamed(c, TableName(b))
    ensures a == b
  {
    assert Lower(c[0][0]) == TableName(a)[0] == TableName(b)[0];
  }

  function RunAll(db: Database, cs: seq<Command>): Database
    decreases |cs|
  {
    if cs == [] then db else RunAll(Run(db, cs[0]), cs[1..])
  }

  lemma {:induction false} GroupedFlatten(kind: Kind, items: seq<Item>)
    requires ItemsOf(kind, items)
    ensures Grouped(Flatten(items), Width(kind)) == items
  {
    if items != [] {
      var args := Flatten(items);
      assert args[..Width(kind)] == items[0];
      assert args[Width(kind)..] == Flatten(items[1..]);
      GroupedFlatten(kind, items[1..]);
    }
  }

  lemma {:induction false} PutAllAppend(v: Value, a: seq<Item>, b: seq<Item>)
    requires ItemsOf(KindOf(v), a) && ItemsOf(KindOf(v), b)
    ensures ItemsOf(KindOf(v), a + b)
    ensures PutAll(v, a + b) == PutAll(PutAll(v, a), b)
    decreases |a|
  {
    if a == [] {
      assert a + b == b;
    } else {
      assert (a + b)[1..] == a[1..] + b;
      PutAllAppend(Put(v, a[0]), a[1..], b);
    }
  }

  lemma RunAdding(db: Database, kind: Kind, key: string, items: seq<Item>)
    requires items != [] && ItemsOf(kind, items)
    requires key in db ==> KindOf(db[key]) == kind
    ensures Run(db, Adding(kind, key, items)) ==
      db[key := PutAll(if key in db then db[key] else Empty(kind), items)]
  {
    hide Grouped, Flatten, PutAll, IsNamed, TableName, Verb;
    var c := Adding(kind, key, items);
    FlattenLength(kind, items);
    GroupedFlatten(kind, items);
    assert c[2..] == Flatten(items);
    assert Adds(c, kind) by { Divides(|items|, Width(kind)); VerbIsLookedUp(kind, c, kind); }
    forall k: Kind | k != kind ensures !Adds(c, k) { VerbIsLookedUp(kind, c, k); }
  }

  lemma Divides(n: nat, w: nat)
    requires w == 1 || w == 2
    ensures (n * w) % w == 0
  {
  }

  /** Running the chunks adds all the items, to the value already there or to an empty one. */
  lemma {:induction false} RunChunks(db: Database, kind: Kind, key: string, items: seq<Item>)
    requires ItemsOf(kind, items)
    requires key in db ==> KindOf(db[key]) == kind
    ensures RunAll(db, Chunks(kind, key, items)) ==
      if items == [] then db else db[key := PutAll(if key in db then db[key] else Empty(kind), items)]
    decreases |items|
  {
    hide Put, PutAll, Run, Adding;
    if items != [] {
      var n := Min(AOF_REWRITE_ITEMS_PER_CMD, |items|);
      var v := if key in db then db[key] else Empty(kind);
      var first, later := items[..n], items[n..];
      RunAdding(db, kind, key, first);
      var db' := db[key := PutAll(v, first)];
      RunChunks(db', kind, key, later);
      assert first + later == items;
      PutAllAppend(v, first, later);
      var cs := Chunks(kind, key, items);
      assert cs[0] == Adding(kind, key, first) && cs[1..] == Chunks(kind, key, later);
      if later == [] { assert first == items; }
    }
  }

  // ---------------------------------------------------------------------
  // Every command is well formed, and every value is rebuilt
  // ---------------------------------------------------------------------

  predicate Fits(key: string, items: seq<Item>) {
    && |key| <= LONG_MAX
    && forall i, j :: 0 <= i < |items| && 0 <= j < |items[i]| ==> |items[i][j]| <= LONG_MAX
  }

  lemma {:induction false} FlattenFits(key: string, items: seq<Item>)
    requires Fits(key, items)
    ensures ArgsFit(Flatten(items))
  {
    if items != [] {
      assert forall i, j :: 0 <= i < |items[1..]| && 0 <= j < |items[1..][i]| ==>
        items[1..][i][j] == items[i + 1][j];
      FlattenFits(key, items[1..]);
    }
  }

  predicate IsChunk(c: Command, kind: Kind, key: string) {
    Encodable(c) && 2 < |c| <= 2 + 64 * Width(kind) && c[0] == Verb(kind) && c[1] == key
  }

  lemma AddingIsChunk(kind: Kind, key: string, items: seq<Item>)
    requires ItemsOf(kind, items) && Fits(key, items) && 0 < |items| <= 64
    ensures IsChunk(Adding(kind, key, items), kind, key)
  {
    hide Flatten;
    FlattenFits(key, items);
    FlattenLength(kind, items);
  }

  /** Each command announces as many arguments as it holds, at most 64 items, and there are as few as that allows. */
  lemma {:induction false} ChunksAreEncodable(kind: Kind, key: string, items: seq<Item>)
    requires ItemsOf(kind, items) && Fits(key, items)
    ensures |Chunks(kind, key, items)| == (|items| + 63) / 64
    ensures forall i :: 0 <= i < |Chunks(kind, key, items)| ==> IsChunk(Chunks(kind, key, items)[i], kind, key)
    decreases |items|
  {
    hide Adding, IsChunk;
    if items != [] {
      var n := Min(AOF_REWRITE_ITEMS_PER_CMD, |items|);
      AddingIsChunk(kind, key, items[..n]);
      ChunksAreEncodable(kind, key, items[n..]);
    }
  }

  /**
   * The bytes written for a value, loaded as an append only file, add exactly the
   * items of the value to a database that does not have the key.
   */
  lemma RewriteRebuilds(kind: Kind, key: string, items: seq<Item>, db: Database, known: string -> bool)
    requires ItemsOf(kind, items) && Fits(key, items)
    requires known(Verb(kind)) && key !in db
    ensures var r := Replay(EncodeAll(Chunks(kind, key, items)), known, false);
      && r.stop == EndOfFile
      && RunAll(db, r.ran) == if items == [] then db else db[key := PutAll(Empty(kind), items)]
  {
    hide Replay, EncodeAll, Encodable, PutAll, Verb, RunAll, IsNamed, Closes, LeavesOpen;
    var chunks := Chunks(kind, key, items);
    ChunksAreEncodable(kind, key, items);
    assert Loadable(chunks, known) by {
      forall i | 0 <= i < |chunks| ensures Encodable(chunks[i]) && known(chunks[i][0]) {
        assert IsChunk(chunks[i], kind, key);
      }
    }
    LoadOfWhole(chunks, known);
    forall i | 0 <= i < |chunks| ensures !IsNamed(chunks[i], "multi") {
      assert IsChunk(chunks[i], kind, key);
      VerbIsNotMulti(kind, chunks[i]);
    }
    LeavesOpenIff(chunks, false);
    RunChunks(db, kind, key, items);
  }

  lemma VerbIsNotMulti(kind: Kind, c: Command)
    requires c != [] && c[0] == Verb(kind)
    ensures !IsNamed(c, "multi")
  {
    if |c[0]| == 5 { assert Lower(c[0][0]) != 'm'; }
  }

  function Singles(values: seq<string>): seq<Item> {
    seq(|values|, i requires 0 <= i < |values| => [values[i]])
  }

  lemma {:induction false} ListRebuilt(before: seq<string>, values: seq<string>)
    ensures ItemsOf(List, Singles(values))
    ensures PutAll(ListValue(before), Singles(values)) == ListValue(before + values)
    decreases |values|
  {
    if values == [] {
      assert before + values == before;
    } else {
      assert Singles(values)[1..] == Singles(values[1..]);
      ListRebuilt(before + [values[0]], values[1..]);
      assert before + [values[0]] + values[1..] == before + values;
    }
  }

  lemma {:induction false} SetRebuilt(before: set<string>, values: seq<string>)
    ensures ItemsOf(Set, Singles(values))
    ensures PutAll(SetValue(before), Singles(values)) == SetValue(before + set x | x in values)
    decreases |values|
  {
    if values != [] {
      assert Singles(values)[1..] == Singles(values[1..]);
      SetRebuilt(before + {values[0]}, values[1..]);
      assert (set x | x in values) == {values[0]} + set x | x in values[1..];
    }
  }

  /** A listing of the keys of a map, each once, in the order an iterator gives them. */
  predicate Lists(order: seq<string>, m: map<string, string>) {
    && (forall i, j :: 0 <= i < j < |order| ==> order[i] != order[j])
    && (forall i :: 0 <= i < |order| ==> order[i] in m)
    && (forall k :: k in m ==> k in order)
  }

  function Scored(order: seq<string>, m: map<string, string>): seq<Item>
    requires forall i :: 0 <= i < |order| ==> order[i] in m
  {
    seq(|order|, i requires 0 <= i < |order| => [m[order[i]], order[i]])
  }

  function Fielded(order: seq<string>, m: map<string, string>): seq<Item>
    requires forall i :: 0 <= i < |order| ==> order[i] in m
  {
    seq(|order|, i requires 0 <= i < |order| => [order[i], m[order[i]]])
  }

  function Restrict(m: map<string, string>, order: seq<string>): map<string, string> {
    map k | k in m && k in order :: m[k]
  }

  lemma RestrictNothing(before: map<string, string>, m: map<string, string>)
    ensures before + Restrict(m, []) == before
  {
  }

  lemma RestrictStep(before: map<string, string>, order: seq<string>, m: map<string, string>)
    requires order != [] && order[0] in m
    ensures before[order[0] := m[order[0]]] + Restrict(m, order[1..]) == before + Restrict(m, order)
  {
    var k := order[0];
    var x, y := before[k := m[k]] + Restrict(m, order[1..]), before + Restrict(m, order);
    assert forall z :: z in order <==> z == k || z in order[1..];
    assert x.Keys == y.Keys;
  }

  lemma {:induction false} SortedSetRebuilt(before: map<string, string>, order: seq<string>, m: map<string, string>)
    requires forall i :: 0 <= i < |order| ==> order[i] in m
    ensures ItemsOf(SortedSet, Scored(order, m))
    ensures PutAll(SortedSetValue(before), Scored(order, m)) == SortedSetValue(before + Restrict(m, order))
    decreases |order|
  {
    hide Restrict;
    if order == [] {
      RestrictNothing(before, m);
    } else {
      var k := order[0];
      assert Scored(order, m)[1..] == Scored(order[1..], m);
      SortedSetRebuilt(before[k := m[k]], order[1..], m);
      RestrictStep(before, order, m);
    }
  }

  lemma {:induction false} HashRebuilt(before: map<string, string>, order: seq<string>, m: map<string, string>)
    requires forall i :: 0 <= i < |order| ==> order[i] in m
    ensures ItemsOf(Hash, Fielded(order, m))
    ensures PutAll(HashValue(before), Fielded(order, m)) == HashValue(before + Restrict(m, order))
    decreases |order|
  {
    hide Restrict;
    if order == [] {
      RestrictNothing(before, m);
    } else {
      var k := order[0];
      assert Fielded(order, m)[1..] == Fielded(order[1..], m);
      HashRebuilt(before[k := m[k]], order[1..], m);
      RestrictStep(before, order, m);
    }
  }

  /** The order in which an iterator visits a value: its elements, members, or keys. */
  predicate Visits(order: seq<string>, v: Value) {
    match v
    case ListValue(elements) => order == elements
    case SetValue(members) => members == set x | x in order
    case SortedSetValue(scores) => Lists(order, scores)
    case HashValue(fields) => Lists(order, fields)
  }

  function ItemsFor(v: Value, order: seq<string>): (items: seq<Item>)
    requires Visits(order, v)
    ensures |items| == |order| && ItemsOf(KindOf(v), items)
  {
    match v
    case ListValue(_) => Singles(order)
    case SetValue(_) => Singles(order)
    case SortedSetValue(scores) => Scored(order, scores)
    case HashValue(fields) => Fielded(order, fields)
  }

  lemma RestrictAll(order: seq<string>, m: map<string, string>)
    requires Lists(order, m)
    ensures map[] + Restrict(m, order) == m
  {
  }

  lemma ValueRebuilt(v: Value, order: seq<string>)
    requires Visits(order, v)
    ensures PutAll(Empty(KindOf(v)), ItemsFor(v, order)) == v
  {
    hide PutAll, Singles, Scored, Fielded, Restrict;
    match v
    case ListValue(elements) =>
      ListRebuilt([], order);
      assert [] + order == elements;
    case SetValue(members) =>
      SetRebuilt({}, order);
      assert {} + (set x | x in order) == members;
    case SortedSetValue(scores) =>
      SortedSetRebuilt(map[], order, scores);
      RestrictAll(order, scores);
    case HashValue(fields) =>
      HashRebuilt(map[], order, fields);
      RestrictAll(order, fields);
  }

  /**
   * Rewriting preserves values: for a value of any size, the bytes written for it
   * load without error, and running what was loaded gives the key that very value.
   */
  lemma RewritePreservesValue(v: Value, order: seq<string>, key: string, db: Database, known: string -> bool)
    requires Visits(order, v) && order != []
    requires Fits(key, ItemsFor(v, order))
    requires known(Verb(KindOf(v))) && key !in db
    ensures var r := Replay(EncodeAll(Chunks(KindOf(v), key, ItemsFor(v, order))), known, false);
      r.stop == EndOfFile && RunAll(db, r.ran) == db[key := v]
  {
    hide Replay, EncodeAll, Chunks, RunAll, PutAll, Visits, ItemsFor, Verb, Fits;
    RewriteRebuilds(KindOf(v), key, ItemsFor(v, order), db, known);
    ValueRebuilt(v, order);
  }
}
