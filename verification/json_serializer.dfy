/** The serializer as it runs: loops over entries in whatever order the table yields them, a
    sort, and a `visited` set shared by the whole recursion. */
module JsonSerializer {
  import opened Common
  import opened Counting
  import opened JsonText
  import opened SortedEntries
  import opened LuaJson

  type Numeric = Entry<nat, LuaValue>
  type Named = Entry<string, LuaValue>

  // ---- Classifying a table by counting its entries ----

  /** The entries gathered from the keys `seen` of the table. */
  ghost predicate Gathered(t: LuaTable, seen: set<LuaKey>, maxIndex: nat, numeric: seq<Numeric>, named: seq<Named>) {
    && Distinct(Keys(numeric)) && Distinct(Keys(named))
    && (forall e :: e in numeric ==> e.key >= 1 && IndexKey(e.key) in seen && Lookup(t, IndexKey(e.key)) == e.value)
    && (forall e :: e in named ==> StringKey(e.key) in seen && Lookup(t, StringKey(e.key)) == e.value)
    && (forall k :: k in seen ==> (IsIndex(k) && Index(k) in Keys(numeric)) || (k.StringKey? && k.s in Keys(named)))
    && (forall i :: i in Keys(numeric) ==> i <= maxIndex)
    && (if numeric == [] then maxIndex == 0 else maxIndex in Keys(numeric))
  }

  lemma IndexLaws()
    ensures forall i: nat :: i >= 1 ==> IsIndex(IndexKey(i)) && Index(IndexKey(i)) == i
    ensures forall k: LuaKey :: IsIndex(k) ==> k.NumberKey? && Index(k) >= 1 && IndexKey(Index(k)) == k
  {
  }

  lemma KeysAppend<K, V>(es: seq<Entry<K, V>>, e: Entry<K, V>)
    ensures Keys(es + [e]) == Keys(es) + [e.key]
  {
  }

  lemma GatherNumeric(t: LuaTable, seen: set<LuaKey>, maxIndex: nat, numeric: seq<Numeric>, named: seq<Named>, k: LuaKey)
    requires Gathered(t, seen, maxIndex, numeric, named) && k !in seen && IsIndex(k)
    ensures Gathered(t, seen + {k}, if Index(k) > maxIndex then Index(k) else maxIndex,
                     numeric + [Entry(Index(k), Lookup(t, k))], named)
  {
    hide IsIndex, Index, IndexKey, Lookup;
    IndexLaws();
    var e := Entry(Index(k), Lookup(t, k));
    KeysAppend(numeric, e);
    forall i | 0 <= i < |numeric|
      ensures Keys(numeric)[i] != e.key
    {
      assert numeric[i] in numeric;
    }
    assert forall i :: i in Keys(numeric) ==> i in Keys(numeric + [e]);
    assert Keys(numeric + [e])[|numeric|] == e.key;
    if numeric != [] {
      assert maxIndex in Keys(numeric + [e]);
    }
  }

  lemma GatherNamed(t: LuaTable, seen: set<LuaKey>, maxIndex: nat, numeric: seq<Numeric>, named: seq<Named>, k: LuaKey)
    requires Gathered(t, seen, maxIndex, numeric, named) && k !in seen && k.StringKey?
    ensures Gathered(t, seen + {k}, maxIndex, numeric, named + [Entry(k.s, Lookup(t, k))])
  {
    hide IsIndex, Index, IndexKey, Lookup;
    var e := Entry(k.s, Lookup(t, k));
    KeysAppend(named, e);
    forall i | 0 <= i < |named|
      ensures Keys(named)[i] != e.key
    {
      assert named[i] in named;
    }
    assert forall s :: s in Keys(named) ==> s in Keys(named + [e]);
    assert Keys(named + [e])[|named|] == e.key;
  }

  /** The loop over the table, in an arbitrary order, left at the first invalid key. */
  method CollectEntries(t: LuaTable)
    returns (hasInvalidKey: bool, maxIndex: nat, numeric: seq<Numeric>, named: seq<Named>)
    ensures hasInvalidKey <==> exists k :: k in t && !IsIndex(k) && !k.StringKey?
    ensures !hasInvalidKey ==> Gathered(t, t.Keys, maxIndex, numeric, named)
  {
    hide Gathered;
    hasInvalidKey, maxIndex, numeric, named := false, 0, [], [];
    var rest := t.Keys;
    NothingGathered(t);
    assert t.Keys - rest == {};
    while rest != {}
      invariant rest <= t.Keys
      invariant !hasInvalidKey && forall k :: k in t.Keys - rest ==> IsIndex(k) || k.StringKey?
      invariant Gathered(t, t.Keys - rest, maxIndex, numeric, named)
    {
      var k :| k in rest;
      if k.NumberKey? {
        if k.millionths < 1_000_000 || k.millionths % 1_000_000 != 0 {
          return true, maxIndex, numeric, named;
        }
        var idx: nat := k.millionths / 1_000_000;
        GatherNumeric(t, t.Keys - rest, maxIndex, numeric, named, k);
        if idx > maxIndex {
          maxIndex := idx;
        }
        numeric := numeric + [Entry(idx, t[k])];
      } else if k.StringKey? {
        GatherNamed(t, t.Keys - rest, maxIndex, numeric, named, k);
        named := named + [Entry(k.s, t[k])];
      } else {
        return true, maxIndex, numeric, named;
      }
      assert t.Keys - (rest - {k}) == t.Keys - rest + {k};
      rest := rest - {k};
    }
    assert t.Keys - rest == t.Keys;
  }

  lemma NothingGathered(t: LuaTable)
    ensures Gathered(t, {}, 0, [], [])
  {
  }

  lemma GatheredIsArray(t: LuaTable, maxIndex: nat, numeric: seq<Numeric>, named: seq<Named>)
    requires Gathered(t, t.Keys, maxIndex, numeric, named)
    ensures named == [] && |numeric| == maxIndex <==> ArrayShaped(t, maxIndex)
  {
    hide IsIndex, Index, IndexKey, Lookup;
    IndexLaws();
    var ks := Keys(numeric);
    forall k | k in ks
      ensures k >= 1 && IndexKey(k) in t
    {
      var i :| 0 <= i < |ks| && ks[i] == k;
      assert numeric[i] in numeric;
    }
    assert named != [] ==> named[0] in named && StringKey(named[0].key) in t;
    CountEqualsMax(ks, maxIndex);
    if named == [] && |numeric| == maxIndex {
      assert Keys(named) == [];
      forall k
        ensures k in t <==> IsIndex(k) && Index(k) <= maxIndex
      {
        if IsIndex(k) && Index(k) <= maxIndex {
          assert Index(k) in ks && IndexKey(Index(k)) in t;
        }
      }
    } else if ArrayShaped(t, maxIndex) {
      forall i | 1 <= i <= maxIndex
        ensures i in ks
      {
        assert IndexKey(i) in t;
      }
    }
  }

  lemma GatheredArrayMax(t: LuaTable, maxIndex: nat, numeric: seq<Numeric>, named: seq<Named>, n: nat)
    requires Gathered(t, t.Keys, maxIndex, numeric, named) && ArrayShaped(t, n)
    ensures n == maxIndex
  {
    hide IsIndex, Index, IndexKey, Lookup;
    IndexLaws();
    if named != [] {
      assert named[0] in named && StringKey(named[0].key) in t;
    }
    if n > 0 {
      assert IndexKey(n) in t;
    }
    if numeric != [] {
      var i :| 0 <= i < |numeric| && Keys(numeric)[i] == maxIndex;
      assert numeric[i] in numeric;
      assert IndexKey(maxIndex) in t;
    }
  }

  lemma GatheredObject(t: LuaTable, maxIndex: nat, numeric: seq<Numeric>, named: seq<Named>)
    requires Gathered(t, t.Keys, maxIndex, numeric, named) && numeric == [] && named != []
    ensures var sorted := SortBy(Less, named);
            ObjectShaped(t, Keys(sorted)) && Values(sorted) == ObjectValues(t, Keys(sorted))
  {
    hide IsIndex, Index, IndexKey, Lookup, Less, SortBy, Sorted;
    LessIsStrictTotal();
    SortIsSorted(Less, named);
    var sorted := SortBy(Less, named);
    SortedIsAscending(Less, sorted);
    assert Keys(numeric) == [];
    forall k
      ensures k in t <==> k.StringKey? && k.s in Keys(sorted)
    {
      if k in t {
        var i :| 0 <= i < |named| && Keys(named)[i] == k.s;
        assert named[i] in named && named[i] in sorted;
        var j :| 0 <= j < |sorted| && sorted[j] == named[i];
        assert Keys(sorted)[j] == k.s;
      }
      if k.StringKey? && k.s in Keys(sorted) {
        var j :| 0 <= j < |sorted| && Keys(sorted)[j] == k.s;
        assert sorted[j] in sorted;
      }
    }
    forall i | 0 <= i < |sorted|
      ensures Values(sorted)[i] == ObjectValues(t, Keys(sorted))[i]
    {
      assert sorted[i] in sorted;
    }
  }

  /** The counting test decides the shape, whatever the order in which entries were met. */
  lemma ShapeByCounting(t: LuaTable, maxIndex: nat, numeric: seq<Numeric>, named: seq<Named>)
    requires Gathered(t, t.Keys, maxIndex, numeric, named)
    ensures ShapeOf(t) ==
            if named == [] && |numeric| == maxIndex then ArrayShape(maxIndex)
            else if numeric != [] then MixedShape
            else ObjectShape(Keys(SortBy(Less, named)))
    ensures numeric == [] && named == [] ==> maxIndex == 0
  {
    hide IsIndex, Index, IndexKey, Lookup, Less, SortBy;
    IndexLaws();
    GatheredIsArray(t, maxIndex, numeric, named);
    forall n | ArrayShaped(t, n)
      ensures n == maxIndex
    {
      GatheredArrayMax(t, maxIndex, numeric, named, n);
    }
    if named == [] && |numeric| == maxIndex {
      ShapeOfArray(t, maxIndex);
    } else if numeric != [] {
      assert numeric[0] in numeric && IndexKey(numeric[0].key) in t;
    } else {
      assert named != [];
      GatheredObject(t, maxIndex, numeric, named);
      ShapeOfObject(t, Keys(SortBy(Less, named)));
    }
  }

  lemma GatheredEntry(t: LuaTable, n: nat, numeric: seq<Numeric>, named: seq<Named>, e: Numeric)
    requires Gathered(t, t.Keys, n, numeric, named) && e in numeric
    ensures 1 <= e.key <= n && Lookup(t, IndexKey(e.key)) == e.value
  {
    hide IsIndex, Index, IndexKey, Lookup;
    var i :| 0 <= i < |numeric| && numeric[i] == e;
    assert Keys(numeric)[i] == e.key && e.key in Keys(numeric);
  }

  lemma InvalidKeyDecides(t: LuaTable)
    requires exists k :: k in t && !IsIndex(k) && !k.StringKey?
    ensures ShapeOf(t) == BadShape
  {
  }

  /** On a table of shape 1..n the sorted indices are 1, 2, ..., n: the branch that reports a
      sparse array is never taken. */
  lemma SortedArrayIsDense(t: LuaTable, n: nat, numeric: seq<Numeric>, named: seq<Named>)
    requires Gathered(t, t.Keys, n, numeric, named) && |numeric| == n
    ensures var sorted := SortBy(IndexLess, numeric);
            && |sorted| == n && (forall i :: 0 <= i < n ==> sorted[i].key == i + 1)
            && Values(sorted) == ArrayValues(t, n)
  {
    assert Distinct(Keys(numeric));
    assert StrictTotal(IndexLess);
    hide Gathered, IndexKey, Lookup, SortBy, Sorted, Distinct, StrictTotal, IsIndex, Index;
    SortIsSorted(IndexLess, numeric);
    var sorted := SortBy(IndexLess, numeric);
    SortedIsAscending(IndexLess, sorted);
    forall i | 0 <= i < n
      ensures 1 <= sorted[i].key <= n && Lookup(t, IndexKey(sorted[i].key)) == sorted[i].value
    {
      assert sorted[i] in sorted;
      GatheredEntry(t, n, numeric, named, sorted[i]);
    }
    AscendingPositive(Keys(sorted), n);
  }

  /** n strictly ascending numbers of 1..n are 1, 2, ..., n. */
  lemma AscendingPositive(ks: seq<nat>, n: nat)
    requires Ascending(IndexLess, ks) && |ks| == n && forall i :: 0 <= i < n ==> 1 <= ks[i] <= n
    ensures forall i :: 0 <= i < n ==> ks[i] == i + 1
  {
    for i := 0 to n
      invariant forall j :: 0 <= j < i ==> ks[j] >= j + 1
    {
      assert i > 0 ==> IndexLess(ks[i - 1], ks[i]);
    }
    var i := n;
    while i > 0
      invariant 0 <= i <= n
      invariant forall j :: i <= j < n ==> ks[j] <= j + 1
    {
      i := i - 1;
      assert i + 1 < n ==> IndexLess(ks[i], ks[i + 1]);
    }
  }

  // ---- The recursion ----

  function Rendered(r: Result<Json>): Result<string> {
    match r
    case Ok(t) => Ok(Print(t))
    case Err(e) => Err(e)
  }

  function RenderedArray(r: Result<seq<Json>>): Result<string> {
    match r
    case Ok(ts) => Ok("[" + PrintItems(ts) + "]")
    case Err(e) => Err(e)
  }

  function RenderedObject(keys: seq<string>, r: Result<seq<Json>>): Result<string>
    requires r.Ok? ==> |r.value| == |keys|
  {
    match r
    case Ok(ts) => Ok("{" + PrintFields(Fields(keys, ts)) + "}")
    case Err(e) => Err(e)
  }

  /** The trees of a list whose first ones are known. */
  function Append(done: seq<Json>, r: Result<seq<Json>>): Result<seq<Json>> {
    match r
    case Ok(ts) => Ok(done + ts)
    case Err(e) => Err(e)
  }

  lemma AppendNothing(r: Result<seq<Json>>)
    ensures Append([], r) == r
  {
    assert r.Ok? ==> [] + r.value == r.value;
  }

  lemma Regroup(a: string, b: string, c: string, d: string)
    ensures a + (b + c + d) == a + b + c + d
  {
  }

  lemma {:induction false} PrintItemsAppend(ts: seq<Json>, t: Json)
    ensures PrintItems(ts + [t]) == PrintItems(ts) + (if ts == [] then "" else ",") + Print(t)
  {
    hide Print;
    if ts == [] {
      assert ts + [t] == [t];
    } else if |ts| == 1 {
      assert (ts + [t])[1..] == [t];
    } else {
      PrintItemsAppend(ts[1..], t);
      assert (ts + [t])[1..] == ts[1..] + [t];
      Regroup(Print(ts[0]) + ",", PrintItems(ts[1..]), ",", Print(t));
    }
  }

  lemma {:induction false} PrintFieldsAppend(fs: seq<Field>, f: Field)
    ensures PrintFields(fs + [f]) == PrintFields(fs) + (if fs == [] then "" else ",") + PrintField(f)
  {
    hide PrintField;
    if fs == [] {
      assert fs + [f] == [f];
    } else if |fs| == 1 {
      assert (fs + [f])[1..] == [f];
    } else {
      PrintFieldsAppend(fs[1..], f);
      assert (fs + [f])[1..] == fs[1..] + [f];
      Regroup(PrintField(fs[0]) + ",", PrintFields(fs[1..]), ",", PrintField(f));
    }
  }

  /** One step of a loop over a list of values. */
  lemma TreeAllStep(h: Heap, path: set<nat>, done: seq<Json>, vs: seq<LuaValue>, depth: nat)
    requires depth <= MAX_DEPTH + 1 && vs != []
    ensures match Tree(h, path, vs[0], depth)
            case Err(e) => Append(done, TreeAll(h, path, vs, depth)) == Err(e)
            case Ok(t) =>
              Append(done, TreeAll(h, path, vs, depth)) == Append(done + [t], TreeAll(h, path, vs[1..], depth))
  {
    hide Tree;
    var rest := TreeAll(h, path, vs[1..], depth);
    var first := Tree(h, path, vs[0], depth);
    if first.Ok? && rest.Ok? {
      assert done + ([first.value] + rest.value) == done + [first.value] + rest.value;
    }
  }

  method QuotedText(s: string) returns (r: string)
    ensures r == Print(JString(s))
  {
    var e := EscapeJson(s);
    r := "\"" + e + "\"";
  }

  class Serializer {
    const heap: Heap
    var visited: set<nat>

    constructor (h: Heap)
      ensures heap == h && visited == {}
    {
      heap := h;
      visited := {};
    }

    /** `visited` is the set of ancestors on entry and again on every exit; the answer is the
        text of the traversal's tree, or its error, whatever the iteration order of the tables. */
    method Serialize(o: LuaValue, depth: nat) returns (r: Result<string>)
      requires depth <= MAX_DEPTH + 1
      modifies `visited
      ensures visited == old(visited)
      ensures r == Rendered(Tree(heap, old(visited), o, depth))
      decreases MAX_DEPTH + 1 - depth, 2, 0
    {
      hide TreeAll, ShapeOf, Escape, PrintNumber, PrintItems, PrintFields;
      if depth > 32 {
        return Err("maximum JSON depth exceeded");
      }
      match o
      case String(s) =>
        var text := QuotedText(s);
        r := Ok(text);
      case Number(m) =>
        r := Ok(PrintNumber(m));
      case Boolean(b) =>
        r := Ok(if b then "true" else "false");
      case Nil =>
        r := Ok("null");
      case Other(Some(s)) =>
        var text := QuotedText(s);
        r := Ok(text);
      case Other(None) =>
        r := Err("unsupported Lua type for JSON serialization");
      case Table(id) =>
        if id in visited {
          return Err("cycle detected during JSON serialization");
        }
        visited := visited + {id};
        r := SerializeTable(TableAt(heap, id), depth);
        visited := visited - {id};
    }

    /** The table branch between the insertion into `visited` and its removal. */
    method SerializeTable(t: LuaTable, depth: nat) returns (r: Result<string>)
      requires depth <= MAX_DEPTH
      modifies `visited
      ensures visited == old(visited)
      ensures match ShapeOf(t)
              case BadShape => r == Err(BAD_KEYS)
              case MixedShape => r == Err(MIXED_KEYS)
              case ArrayShape(n) => r == RenderedArray(TreeAll(heap, old(visited), ArrayValues(t, n), depth + 1))
              case ObjectShape(keys) =>
                r == RenderedObject(keys, TreeAll(heap, old(visited), ObjectValues(t, keys), depth + 1))
      decreases MAX_DEPTH + 1 - depth, 1, 0
    {
      hide *;
      var hasInvalidKey, maxIndex, numeric, named := CollectEntries(t);
      if hasInvalidKey {
        InvalidKeyDecides(t);
        return Err(BAD_KEYS);
      }
      ShapeByCounting(t, maxIndex, numeric, named);
      var isArray := named == [] && |numeric| == maxIndex;
      if isArray {
        var sorted := SortBy(IndexLess, numeric);
        SortedArrayIsDense(t, maxIndex, numeric, named);
        r := SerializeItems(sorted, depth + 1);
      } else if numeric != [] {
        r := Err(MIXED_KEYS);
      } else {
        var sorted := SortBy(Less, named);
        GatheredObject(t, maxIndex, numeric, named);
        r := SerializeFields(sorted, depth + 1);
      }
    }

    method SerializeItems(entries: seq<Numeric>, depth: nat) returns (r: Result<string>)
      requires depth <= MAX_DEPTH + 1
      requires forall i :: 0 <= i < |entries| ==> entries[i].key == i + 1
      modifies `visited
      ensures visited == old(visited)
      ensures r == RenderedArray(TreeAll(heap, old(visited), Values(entries), depth))
      decreases MAX_DEPTH + 1 - depth, 3, 0
    {
      hide Tree, TreeAll, Print, PrintItems;
      var json := "[";
      var first := true;
      ghost var vs := Values(entries);
      ghost var done: seq<Json> := [];
      EmptyLists();
      assert vs[0..] == vs;
      AppendNothing(TreeAll(heap, visited, vs, depth));
      for i := 0 to |entries|
        invariant visited == old(visited)
        invariant first <==> done == []
        invariant json == "[" + PrintItems(done)
        invariant Append(done, TreeAll(heap, visited, vs[i..], depth)) == TreeAll(heap, visited, vs, depth)
      {
        // The source reports a sparse array here; the sorted keys are 1, 2, 3, ...
        assert entries[i].key == i + 1;
        if !first {
          json := json + ",";
        }
        first := false;
        TreeAllStep(heap, visited, done, vs[i..], depth);
        assert vs[i..][1..] == vs[i + 1..];
        var elem := Serialize(entries[i].value, depth);
        if elem.Err? {
          return Err(elem.message);
        }
        PrintItemsAppend(done, Tree(heap, visited, vs[i], depth).value);
        done := done + [Tree(heap, visited, vs[i], depth).value];
        json := json + elem.value;
      }
      TreeAllNil(heap, visited, depth);
      assert vs[|entries|..] == [] && done + [] == done;
      r := Ok(json + "]");
    }

    method SerializeFields(entries: seq<Named>, depth: nat) returns (r: Result<string>)
      requires depth <= MAX_DEPTH + 1
      modifies `visited
      ensures visited == old(visited)
      ensures r == RenderedObject(Keys(entries), TreeAll(heap, old(visited), Values(entries), depth))
      decreases MAX_DEPTH + 1 - depth, 3, 0
    {
      hide Tree, TreeAll, Print, PrintFields;
      var json := "{";
      var first := true;
      ghost var keys, vs := Keys(entries), Values(entries);
      ghost var done: seq<Json> := [];
      EmptyLists();
      assert vs[0..] == vs && Fields(keys[..0], done) == [];
      AppendNothing(TreeAll(heap, visited, vs, depth));
      for i := 0 to |entries|
        invariant visited == old(visited)
        invariant |done| == i && (first <==> done == [])
        invariant json == "{" + PrintFields(Fields(keys[..i], done))
        invariant Append(done, TreeAll(heap, visited, vs[i..], depth)) == TreeAll(heap, visited, vs, depth)
      {
        if !first {
          json := json + ",";
        }
        first := false;
        var key := QuotedText(entries[i].key);
        json := json + key + ":";
        TreeAllStep(heap, visited, done, vs[i..], depth);
        assert vs[i..][1..] == vs[i + 1..];
        var elem := Serialize(entries[i].value, depth);
        if elem.Err? {
          return Err(elem.message);
        }
        ghost var t := Tree(heap, visited, vs[i], depth).value;
        OneMoreField(keys, done, t);
        done := done + [t];
        json := json + elem.value;
      }
      TreeAllNil(heap, visited, depth);
      assert vs[|entries|..] == [] && done + [] == done && keys[..|entries|] == keys;
      r := Ok(json + "}");
    }
  }

  lemma TreeAllNil(h: Heap, path: set<nat>, depth: nat)
    requires depth <= MAX_DEPTH + 1
    ensures TreeAll(h, path, [], depth) == Ok([])
  {
  }

  lemma OneMoreField(keys: seq<string>, done: seq<Json>, t: Json)
    requires |done| < |keys|
    ensures PrintFields(Fields(keys[..|done| + 1], done + [t])) ==
            PrintFields(Fields(keys[..|done|], done)) + (if done == [] then "" else ",")
            + (Print(JString(keys[|done|])) + ":" + Print(t))
  {
    hide Print, PrintFields, PrintField;
    var i := |done|;
    PrintFieldsAppend(Fields(keys[..i], done), Field(keys[i], t));
    FieldText(Field(keys[i], t));
    assert Fields(keys[..i], done) + [Field(keys[i], t)] == Fields(keys[..i + 1], done + [t]);
  }

  lemma FieldText(f: Field)
    ensures PrintField(f) == Print(JString(f.key)) + ":" + Print(f.value)
  {
  }

  /** `luaObjectToJson`: succeeds exactly when the value unfolds to a finite tree within the depth
      cap, and then writes a text that reads back as that tree. */
  method LuaObjectToJson(h: Heap, v: LuaValue) returns (r: Result<string>)
    ensures r == Rendered(Tree(h, {}, v, 0))
    ensures r.Ok? <==> CanUnfold(h, v)
    ensures r.Ok? ==> exists t :: ParseValue(r.value) == Some(Parsed(t, "")) && Unfolds(h, v, t)
  {
    hide Tree, Unfolds, WithinDepth, CanUnfold, Print, ParseValue;
    var serializer := new Serializer(h);
    r := serializer.Serialize(v, 0);
    TraversalIsExact(h, v);
    if r.Ok? {
      assert Unfolds(h, v, Tree(h, {}, v, 0).value) by {
        TreeSound(h, {}, v, 0);
      }
    }
  }

  lemma AllUnfold(h: Heap, args: seq<LuaValue>)
    ensures TreeAll(h, {}, args, 0).Ok? <==> CanUnfoldAll(h, args)
  {
    hide TreeAll, CanUnfoldAll;
    VariadicIsExact(h, args);
  }

  /** `luaVariadicToJson`: every argument from a fresh `visited` set, in brackets. */
  method LuaVariadicToJson(h: Heap, args: seq<LuaValue>) returns (r: Result<string>)
    ensures r == RenderedArray(TreeAll(h, {}, args, 0))
    ensures r.Ok? <==> CanUnfoldAll(h, args)
  {
    hide Tree, TreeAll, Print, PrintItems, Unfolds, WithinDepth, ParseValue, CanUnfold, CanUnfoldAll;
    AllUnfold(h, args);
    var json := "[";
    var first := true;
    ghost var done: seq<Json> := [];
    EmptyLists();
    assert args[0..] == args;
    AppendNothing(TreeAll(h, {}, args, 0));
    for i := 0 to |args|
      invariant first <==> done == []
      invariant json == "[" + PrintItems(done)
      invariant Append(done, TreeAll(h, {}, args[i..], 0)) == TreeAll(h, {}, args, 0)
    {
      TreeAllStep(h, {}, done, args[i..], 0);
      assert args[i..][1..] == args[i + 1..];
      var item := LuaObjectToJson(h, args[i]);
      if item.Err? {
        return Err(item.message);
      }
      ghost var t := Tree(h, {}, args[i], 0).value;
      if !first {
        json := json + ",";
      }
      first := false;
      PrintItemsAppend(done, t);
      done := done + [t];
      json := json + item.value;
    }
    TreeAllNil(h, {}, 0);
    assert args[|args|..] == [] && done + [] == done;
    r := Ok(json + "]");
  }
}
