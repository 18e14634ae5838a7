/** Lua values to JSON text: the recursive printer over a table graph that may share or
    contain cycles. */
module LuaJson {
  import opened Common
  import opened JsonText
  import opened SortedEntries

  datatype LuaKey = NumberKey(millionths: int) | StringKey(s: string) | OtherKey(tag: nat)

  /** `Other` is any other Lua type, with what the global `tostring` makes of it. */
  datatype LuaValue =
    | Nil
    | Boolean(b: bool)
    | Number(millionths: int)
    | String(s: string)
    | Table(id: nat)
    | Other(text: Option<string>)

  type LuaTable = map<LuaKey, LuaValue>
  type Heap = map<nat, LuaTable>

  const MAX_DEPTH: nat := 32

  const DEPTH_EXCEEDED := "maximum JSON depth exceeded"
  const CYCLE := "cycle detected during JSON serialization"
  const BAD_KEYS := "only string keys supported in JSON object mapping"
  const MIXED_KEYS := "mixed or numeric keys are not supported in JSON objects"
  const UNSUPPORTED := "unsupported Lua type for JSON serialization"

  lemma ErrorTexts()
    ensures DEPTH_EXCEEDED == "maximum JSON depth exceeded"
    ensures CYCLE == "cycle detected during JSON serialization"
    ensures BAD_KEYS == "only string keys supported in JSON object mapping"
    ensures MIXED_KEYS == "mixed or numeric keys are not supported in JSON objects"
    ensures UNSUPPORTED == "unsupported Lua type for JSON serialization"
  {
  }

  function TableAt(h: Heap, id: nat): LuaTable {
    if id in h then h[id] else map[]
  }

  /** Reading an absent key gives nil. */
  function Lookup(t: LuaTable, k: LuaKey): LuaValue {
    if k in t then t[k] else Nil
  }

  /** A numeric key that is an integer of at least 1. */
  predicate IsIndex(k: LuaKey) {
    k.NumberKey? && k.millionths >= MILLION && k.millionths % MILLION == 0
  }

  function IndexKey(i: nat): LuaKey {
    NumberKey(i * MILLION)
  }

  function Index(k: LuaKey): nat
    requires IsIndex(k)
  {
    k.millionths / MILLION
  }

  // ---- The reference: what a Lua value unfolds to ----

  /** The keys are exactly 1..n. */
  ghost predicate ArrayShaped(t: LuaTable, n: nat) {
    forall k :: k in t <==> IsIndex(k) && Index(k) <= n
  }

  /** The keys are exactly the strings of the strictly ascending list. */
  ghost predicate ObjectShaped(t: LuaTable, keys: seq<string>) {
    keys != [] && Ascending(Less, keys) && forall k :: k in t <==> k.StringKey? && k.s in keys
  }

  function FieldKeys(fields: seq<Field>): (ks: seq<string>)
    ensures |ks| == |fields| && forall i :: 0 <= i < |ks| ==> ks[i] == fields[i].key
  {
    seq(|fields|, i requires 0 <= i < |fields| => fields[i].key)
  }

  /** The table graph reachable from `v` unfolds to the finite tree `t`. */
  ghost predicate Unfolds(h: Heap, v: LuaValue, t: Json)
    decreases t
  {
    match t
    case JNull => v.Nil?
    case JBool(b) => v == Boolean(b)
    case JNumber(m) => v == Number(m)
    case JString(s) => v == String(s) || v == Other(Some(s))
    case JArray(items) =>
      && v.Table? && ArrayShaped(TableAt(h, v.id), |items|)
      && forall i :: 0 <= i < |items| ==> Unfolds(h, Lookup(TableAt(h, v.id), IndexKey(i + 1)), items[i])
    case JObject(fields) =>
      && v.Table? && ObjectShaped(TableAt(h, v.id), FieldKeys(fields))
      && forall i :: 0 <= i < |fields| ==>
           Unfolds(h, Lookup(TableAt(h, v.id), StringKey(fields[i].key)), fields[i].value)
  }

  /** No value of the tree lies deeper than the cap when its root is at `depth`. */
  ghost predicate WithinDepth(t: Json, depth: nat) {
    && depth <= MAX_DEPTH
    && match t
       case JArray(items) => forall i :: 0 <= i < |items| ==> WithinDepth(items[i], depth + 1)
       case JObject(fields) => forall i :: 0 <= i < |fields| ==> WithinDepth(fields[i].value, depth + 1)
       case _ => true
  }

  function Highest(heights: seq<nat>): (m: nat)
    ensures forall i :: 0 <= i < |heights| ==> heights[i] <= m
    ensures m > 0 ==> m in heights
  {
    if heights == [] then 0
    else
      var rest := Highest(heights[1..]);
      if heights[0] > rest then heights[0] else rest
  }

  /** The depth of the deepest value below the root. */
  function Height(t: Json): nat {
    match t
    case JArray(items) =>
      if items == [] then 0 else 1 + Highest(seq(|items|, i requires 0 <= i < |items| => Height(items[i])))
    case JObject(fields) =>
      if fields == [] then 0 else 1 + Highest(seq(|fields|, i requires 0 <= i < |fields| => Height(fields[i].value)))
    case _ => 0
  }

  /** The cap is 32 levels below the root. */
  lemma {:induction false} CapIs32(t: Json, depth: nat)
    ensures WithinDepth(t, depth) <==> depth + Height(t) <= 32
    decreases t
  {
    match t
    case JArray(items) =>
      var heights := seq(|items|, i requires 0 <= i < |items| => Height(items[i]));
      forall i | 0 <= i < |items|
        ensures WithinDepth(items[i], depth + 1) <==> depth + 1 + heights[i] <= 32
      {
        CapIs32(items[i], depth + 1);
      }
      DeepestDecides(heights, depth);
    case JObject(fields) =>
      var heights := seq(|fields|, i requires 0 <= i < |fields| => Height(fields[i].value));
      forall i | 0 <= i < |fields|
        ensures WithinDepth(fields[i].value, depth + 1) <==> depth + 1 + heights[i] <= 32
      {
        CapIs32(fields[i].value, depth + 1);
      }
      DeepestDecides(heights, depth);
    case _ =>
  }

  lemma DeepestDecides(heights: seq<nat>, depth: nat)
    ensures heights != [] ==>
              (depth + 1 + Highest(heights) <= 32 <==> forall i :: 0 <= i < |heights| ==> depth + 1 + heights[i] <= 32)
  {
    if heights != [] && Highest(heights) == 0 {
      assert heights[0] == 0;
    }
  }

  // ---- The traversal as a function: `path` holds the ancestors ----

  datatype Shape = BadShape | MixedShape | ArrayShape(n: nat) | ObjectShape(keys: seq<string>)

  ghost function ShapeOf(t: LuaTable): Shape {
    if exists k :: k in t && !IsIndex(k) && !k.StringKey? then BadShape
    else if exists n :: ArrayShaped(t, n) then
      var n :| ArrayShaped(t, n);
      ArrayShape(n)
    else if exists keys :: ObjectShaped(t, keys) then
      var keys :| ObjectShaped(t, keys);
      ObjectShape(keys)
    else MixedShape
  }

  function ArrayValues(t: LuaTable, n: nat): (vs: seq<LuaValue>)
    ensures |vs| == n && forall i :: 0 <= i < n ==> vs[i] == Lookup(t, IndexKey(i + 1))
  {
    seq(n, i requires 0 <= i < n => Lookup(t, IndexKey(i + 1)))
  }

  function ObjectValues(t: LuaTable, keys: seq<string>): (vs: seq<LuaValue>)
    ensures |vs| == |keys| && forall i :: 0 <= i < |keys| ==> vs[i] == Lookup(t, StringKey(keys[i]))
  {
    seq(|keys|, i requires 0 <= i < |keys| => Lookup(t, StringKey(keys[i])))
  }

  function Fields(keys: seq<string>, ts: seq<Json>): (fs: seq<Field>)
    requires |keys| == |ts|
    ensures |fs| == |keys| && forall i :: 0 <= i < |keys| ==> fs[i] == Field(keys[i], ts[i])
  {
    seq(|keys|, i requires 0 <= i < |keys| => Field(keys[i], ts[i]))
  }

  ghost function Tree(h: Heap, path: set<nat>, v: LuaValue, depth: nat): Result<Json>
    requires depth <= MAX_DEPTH + 1
    decreases MAX_DEPTH + 1 - depth, 0
  {
    if depth > MAX_DEPTH then Err(DEPTH_EXCEEDED)
    else
      match v
      case String(s) => Ok(JString(s))
      case Number(m) => Ok(JNumber(m))
      case Boolean(b) => Ok(JBool(b))
      case Nil => Ok(JNull)
      case Other(Some(s)) => Ok(JString(s))
      case Other(None) => Err(UNSUPPORTED)
      case Table(id) =>
        if id in path then Err(CYCLE)
        else
          var t := TableAt(h, id);
          match ShapeOf(t)
          case BadShape => Err(BAD_KEYS)
          case MixedShape => Err(MIXED_KEYS)
          case ArrayShape(n) =>
            (match TreeAll(h, path + {id}, ArrayValues(t, n), depth + 1)
             case Ok(ts) => Ok(JArray(ts))
             case Err(e) => Err(e))
          case ObjectShape(keys) =>
            (match TreeAll(h, path + {id}, ObjectValues(t, keys), depth + 1)
             case Ok(ts) => Ok(JObject(Fields(keys, ts)))
             case Err(e) => Err(e))
  }

  /** The trees of all values, or the error of the first that has none. */
  ghost function TreeAll(h: Heap, path: set<nat>, vs: seq<LuaValue>, depth: nat): (r: Result<seq<Json>>)
    requires depth <= MAX_DEPTH + 1
    ensures r.Ok? ==> |r.value| == |vs|
    decreases MAX_DEPTH + 1 - depth, 1 + |vs|
  {
    if vs == [] then Ok([])
    else
      match Tree(h, path, vs[0], depth)
      case Err(e) => Err(e)
      case Ok(t) => Cons(t, TreeAll(h, path, vs[1..], depth))
  }

  function Cons(t: Json, r: Result<seq<Json>>): Result<seq<Json>> {
    match r
    case Ok(ts) => Ok([t] + ts)
    case Err(e) => Err(e)
  }

  // ---- The traversal succeeds exactly on finite, shallow, well-shaped unfoldings ----

  lemma ArrayShapeIsUnique(t: LuaTable, n: nat, m: nat)
    requires ArrayShaped(t, n) && ArrayShaped(t, m)
    ensures n == m
  {
    assert Index(IndexKey(n + 1)) == n + 1 && Index(IndexKey(m + 1)) == m + 1;
    assert n > 0 ==> Index(IndexKey(n)) == n;
    assert m > 0 ==> Index(IndexKey(m)) == m;
    assert n > 0 ==> IndexKey(n) in t;
    assert m > 0 ==> IndexKey(m) in t;
  }

  lemma ObjectShapeIsUnique(t: LuaTable, a: seq<string>, b: seq<string>)
    requires ObjectShaped(t, a) && ObjectShaped(t, b)
    ensures a == b
  {
    LessIsStrictTotal();
    forall k
      ensures k in a <==> k in b
    {
      assert k in a <==> StringKey(k) in t;
    }
    AscendingIsUnique(Less, a, b);
  }

  lemma ShapesExclude(t: LuaTable, n: nat, keys: seq<string>)
    requires ObjectShaped(t, keys)
    ensures !ArrayShaped(t, n)
  {
    assert keys[0] in keys && StringKey(keys[0]) in t;
  }

  lemma ShapeOfArray(t: LuaTable, n: nat)
    requires ArrayShaped(t, n)
    ensures ShapeOf(t) == ArrayShape(n)
  {
    forall m | ArrayShaped(t, m)
      ensures m == n
    {
      ArrayShapeIsUnique(t, n, m);
    }
  }

  lemma ShapeOfObject(t: LuaTable, keys: seq<string>)
    requires ObjectShaped(t, keys)
    ensures ShapeOf(t) == ObjectShape(keys)
  {
    forall n: nat
      ensures !ArrayShaped(t, n)
    {
      ShapesExclude(t, n, keys);
    }
    forall other | ObjectShaped(t, other)
      ensures other == keys
    {
      ObjectShapeIsUnique(t, keys, other);
    }
  }

  lemma ArraySound(h: Heap, id: nat, items: seq<Json>, depth: nat)
    requires ArrayShaped(TableAt(h, id), |items|) && depth <= MAX_DEPTH
    requires forall i :: 0 <= i < |items| ==>
               && Unfolds(h, ArrayValues(TableAt(h, id), |items|)[i], items[i]) && WithinDepth(items[i], depth + 1)
    ensures Unfolds(h, Table(id), JArray(items)) && WithinDepth(JArray(items), depth)
  {
    hide ArrayShaped;
  }

  lemma ObjectSound(h: Heap, id: nat, keys: seq<string>, ts: seq<Json>, depth: nat)
    requires ObjectShaped(TableAt(h, id), keys) && |ts| == |keys| && depth <= MAX_DEPTH
    requires forall i :: 0 <= i < |ts| ==>
               && Unfolds(h, ObjectValues(TableAt(h, id), keys)[i], ts[i]) && WithinDepth(ts[i], depth + 1)
    ensures Unfolds(h, Table(id), JObject(Fields(keys, ts))) && WithinDepth(JObject(Fields(keys, ts)), depth)
  {
    hide ObjectShaped;
    var fields := Fields(keys, ts);
    assert FieldKeys(fields) == keys;
    forall i | 0 <= i < |fields|
      ensures Unfolds(h, Lookup(TableAt(h, id), StringKey(fields[i].key)), fields[i].value)
      ensures WithinDepth(fields[i].value, depth + 1)
    {
      assert fields[i] == Field(keys[i], ts[i]);
    }
  }

  lemma ShapeHolds(t: LuaTable)
    ensures ShapeOf(t).ArrayShape? ==> ArrayShaped(t, ShapeOf(t).n)
    ensures ShapeOf(t).ObjectShape? ==> ObjectShaped(t, ShapeOf(t).keys)
  {
    hide ArrayShaped, ObjectShaped;
  }

  lemma ScalarSound(h: Heap, path: set<nat>, v: LuaValue, depth: nat)
    requires depth <= MAX_DEPTH + 1 && !v.Table? && Tree(h, path, v, depth).Ok?
    ensures Unfolds(h, v, Tree(h, path, v, depth).value)
    ensures WithinDepth(Tree(h, path, v, depth).value, depth)
  {
    hide TreeAll, ShapeOf;
  }

  /** A table is printed when its shape allows it and all its values are. */
  lemma TableResult(h: Heap, path: set<nat>, id: nat, depth: nat)
    requires depth <= MAX_DEPTH + 1 && Tree(h, path, Table(id), depth).Ok?
    ensures depth <= MAX_DEPTH && (ShapeOf(TableAt(h, id)).ArrayShape? || ShapeOf(TableAt(h, id)).ObjectShape?)
    ensures var shape := ShapeOf(TableAt(h, id));
            shape.ArrayShape? ==>
              var r := TreeAll(h, path + {id}, ArrayValues(TableAt(h, id), shape.n), depth + 1);
              r.Ok? && Tree(h, path, Table(id), depth).value == JArray(r.value)
    ensures var shape := ShapeOf(TableAt(h, id));
            shape.ObjectShape? ==>
              var r := TreeAll(h, path + {id}, ObjectValues(TableAt(h, id), shape.keys), depth + 1);
              r.Ok? && Tree(h, path, Table(id), depth).value == JObject(Fields(shape.keys, r.value))
  {
    hide TreeAll, ShapeOf;
  }

  lemma {:induction false} TreeSound(h: Heap, path: set<nat>, v: LuaValue, depth: nat)
    requires depth <= MAX_DEPTH + 1 && Tree(h, path, v, depth).Ok?
    ensures Unfolds(h, v, Tree(h, path, v, depth).value)
    ensures WithinDepth(Tree(h, path, v, depth).value, depth)
    decreases MAX_DEPTH + 1 - depth, 0
  {
    hide Unfolds, WithinDepth, Tree, TreeAll, ShapeOf;
    if v.Table? {
      var t := TableAt(h, v.id);
      assert v == Table(v.id);
      ShapeHolds(t);
      TableResult(h, path, v.id, depth);
      if ShapeOf(t).ArrayShape? {
        var vs := ArrayValues(t, ShapeOf(t).n);
        TreeAllSound(h, path + {v.id}, vs, depth + 1);
        ArraySound(h, v.id, TreeAll(h, path + {v.id}, vs, depth + 1).value, depth);
      } else {
        var keys := ShapeOf(t).keys;
        TreeAllSound(h, path + {v.id}, ObjectValues(t, keys), depth + 1);
        ObjectSound(h, v.id, keys, TreeAll(h, path + {v.id}, ObjectValues(t, keys), depth + 1).value, depth);
      }
    } else {
      ScalarSound(h, path, v, depth);
    }
  }

  lemma {:induction false} TreeAllSound(h: Heap, path: set<nat>, vs: seq<LuaValue>, depth: nat)
    requires depth <= MAX_DEPTH + 1 && TreeAll(h, path, vs, depth).Ok?
    ensures forall i :: 0 <= i < |vs| ==>
              && Unfolds(h, vs[i], TreeAll(h, path, vs, depth).value[i])
              && WithinDepth(TreeAll(h, path, vs, depth).value[i], depth)
    decreases MAX_DEPTH + 1 - depth, 1 + |vs|
  {
    hide Unfolds, WithinDepth;
    if vs != [] {
      TreeSound(h, path, vs[0], depth);
      TreeAllSound(h, path, vs[1..], depth);
      var ts := TreeAll(h, path, vs, depth).value;
      forall i | 0 <= i < |vs|
        ensures Unfolds(h, vs[i], ts[i]) && WithinDepth(ts[i], depth)
      {
        if i > 0 {
          assert vs[i] == vs[1..][i - 1] && ts[i] == ts[1..][i - 1];
        }
      }
    }
  }

  lemma {:induction false} UnfoldingIsUnique(h: Heap, v: LuaValue, t: Json, u: Json)
    requires Unfolds(h, v, t) && Unfolds(h, v, u)
    ensures t == u
    decreases t
  {
    if t.JArray? && u.JArray? {
      ArrayShapeIsUnique(TableAt(h, v.id), |t.items|, |u.items|);
      forall i | 0 <= i < |t.items|
        ensures t.items[i] == u.items[i]
      {
        UnfoldingIsUnique(h, Lookup(TableAt(h, v.id), IndexKey(i + 1)), t.items[i], u.items[i]);
      }
    } else if t.JObject? && u.JObject? {
      var keys, others := FieldKeys(t.fields), FieldKeys(u.fields);
      ObjectShapeIsUnique(TableAt(h, v.id), keys, others);
      forall i | 0 <= i < |t.fields|
        ensures t.fields[i] == u.fields[i]
      {
        assert keys[i] == others[i];
        UnfoldingIsUnique(h, Lookup(TableAt(h, v.id), StringKey(keys[i])), t.fields[i].value, u.fields[i].value);
      }
    } else if t.JArray? && u.JObject? {
      ShapesExclude(TableAt(h, v.id), |t.items|, FieldKeys(u.fields));
    } else if t.JObject? && u.JArray? {
      ShapesExclude(TableAt(h, v.id), |u.items|, FieldKeys(t.fields));
    }
  }

  /** The ancestors, each with its own unfolding, which is larger than the tree below it. */
  ghost predicate Above(h: Heap, ancestors: map<nat, Json>, t: Json) {
    forall a :: a in ancestors ==> Unfolds(h, Table(a), ancestors[a]) && t < ancestors[a]
  }

  lemma TreeOfArray(h: Heap, path: set<nat>, id: nat, items: seq<Json>, depth: nat)
    requires depth <= MAX_DEPTH && id !in path && ShapeOf(TableAt(h, id)) == ArrayShape(|items|)
    requires TreeAll(h, path + {id}, ArrayValues(TableAt(h, id), |items|), depth + 1) == Ok(items)
    ensures Tree(h, path, Table(id), depth) == Ok(JArray(items))
  {
    hide ShapeOf, TreeAll;
  }

  lemma TreeOfObject(h: Heap, path: set<nat>, id: nat, fields: seq<Field>, depth: nat)
    requires depth <= MAX_DEPTH && id !in path && ShapeOf(TableAt(h, id)) == ObjectShape(FieldKeys(fields))
    requires var keys := FieldKeys(fields);
             var r := TreeAll(h, path + {id}, ObjectValues(TableAt(h, id), keys), depth + 1);
             r.Ok? && Fields(keys, r.value) == fields
    ensures Tree(h, path, Table(id), depth) == Ok(JObject(fields))
  {
    hide ShapeOf, TreeAll;
  }

  /** A value that unfolds to a finite tree never meets one of its ancestors again, so sharing
      is never taken for a cycle. */
  lemma {:induction false} TreeComplete(h: Heap, ancestors: map<nat, Json>, v: LuaValue, t: Json, depth: nat)
    requires Unfolds(h, v, t) && WithinDepth(t, depth) && Above(h, ancestors, t)
    ensures Tree(h, ancestors.Keys, v, depth) == Ok(t)
    decreases MAX_DEPTH + 1 - depth, 0
  {
    if v.Table? {
      assert t.JArray? || t.JObject?;
      assert depth <= MAX_DEPTH;
      NotAbove(h, ancestors, v, t);
      AboveBelow(h, ancestors, v.id, t);
      hide Unfolds, WithinDepth, Above, Tree, TreeAll, ShapeOf;
      var below := ancestors[v.id := t];
      assert below.Keys == ancestors.Keys + {v.id} && v == Table(v.id);
      if t.JArray? {
        ArrayComplete(h, below, v.id, t.items, depth);
        TreeOfArray(h, ancestors.Keys, v.id, t.items, depth);
      } else {
        ObjectComplete(h, below, v.id, t.fields, depth);
        TreeOfObject(h, ancestors.Keys, v.id, t.fields, depth);
      }
    }
  }

  /** An ancestor's tree is larger, so the value itself is none of them. */
  lemma NotAbove(h: Heap, ancestors: map<nat, Json>, v: LuaValue, t: Json)
    requires v.Table? && Unfolds(h, v, t) && Above(h, ancestors, t)
    ensures v.id !in ancestors
  {
    if v.id in ancestors {
      UnfoldingIsUnique(h, v, t, ancestors[v.id]);
    }
    hide Unfolds;
  }

  /** The ancestors of the parts of a tree: the tree's own table and those above it. */
  ghost predicate AboveParts(h: Heap, below: map<nat, Json>, t: Json) {
    forall a :: a in below ==> Unfolds(h, Table(a), below[a]) && (t == below[a] || t < below[a])
  }

  lemma AboveBelow(h: Heap, ancestors: map<nat, Json>, id: nat, t: Json)
    requires Unfolds(h, Table(id), t) && Above(h, ancestors, t)
    ensures AboveParts(h, ancestors[id := t], t)
  {
    hide Unfolds;
  }

  lemma PartIsBelow(h: Heap, below: map<nat, Json>, t: Json, part: Json)
    requires AboveParts(h, below, t) && part < t
    ensures Above(h, below, part)
  {
    hide Unfolds;
  }

  lemma ArrayParts(h: Heap, id: nat, items: seq<Json>, depth: nat)
    requires Unfolds(h, Table(id), JArray(items)) && WithinDepth(JArray(items), depth)
    ensures ArrayShaped(TableAt(h, id), |items|) && depth <= MAX_DEPTH
    ensures forall i :: 0 <= i < |items| ==>
              && Unfolds(h, ArrayValues(TableAt(h, id), |items|)[i], items[i]) && WithinDepth(items[i], depth + 1)
              && items[i] < JArray(items)
  {
    hide ArrayShaped;
  }

  lemma ObjectParts(h: Heap, id: nat, fields: seq<Field>, depth: nat)
    requires Unfolds(h, Table(id), JObject(fields)) && WithinDepth(JObject(fields), depth)
    ensures ObjectShaped(TableAt(h, id), FieldKeys(fields)) && depth <= MAX_DEPTH
    ensures forall i :: 0 <= i < |fields| ==>
              && Unfolds(h, ObjectValues(TableAt(h, id), FieldKeys(fields))[i], fields[i].value)
              && WithinDepth(fields[i].value, depth + 1) && fields[i].value < JObject(fields)
  {
    hide ObjectShaped;
    forall i | 0 <= i < |fields|
      ensures fields[i].value < JObject(fields)
    {
      assert fields[i].value < fields[i] < JObject(fields);
    }
  }

  lemma {:induction false} ArrayComplete(h: Heap, below: map<nat, Json>, id: nat, items: seq<Json>, depth: nat)
    requires Unfolds(h, Table(id), JArray(items)) && WithinDepth(JArray(items), depth)
    requires AboveParts(h, below, JArray(items))
    ensures ShapeOf(TableAt(h, id)) == ArrayShape(|items|) && depth <= MAX_DEPTH
    ensures TreeAll(h, below.Keys, ArrayValues(TableAt(h, id), |items|), depth + 1) == Ok(items)
    decreases MAX_DEPTH - depth, 2 + |items|
  {
    hide Tree, TreeAll, ShapeOf, Unfolds, WithinDepth, Above, AboveParts;
    ArrayParts(h, id, items, depth);
    ShapeOfArray(TableAt(h, id), |items|);
    forall i | 0 <= i < |items|
      ensures Above(h, below, items[i])
    {
      PartIsBelow(h, below, JArray(items), items[i]);
    }
    TreeAllComplete(h, below, ArrayValues(TableAt(h, id), |items|), items, depth + 1);
  }

  lemma {:induction false} ObjectComplete(h: Heap, below: map<nat, Json>, id: nat, fields: seq<Field>, depth: nat)
    requires Unfolds(h, Table(id), JObject(fields)) && WithinDepth(JObject(fields), depth)
    requires AboveParts(h, below, JObject(fields))
    ensures ShapeOf(TableAt(h, id)) == ObjectShape(FieldKeys(fields)) && depth <= MAX_DEPTH
    ensures var keys := FieldKeys(fields);
            var r := TreeAll(h, below.Keys, ObjectValues(TableAt(h, id), keys), depth + 1);
            r.Ok? && Fields(keys, r.value) == fields
    decreases MAX_DEPTH - depth, 2 + |fields|
  {
    hide Tree, TreeAll, ShapeOf, Unfolds, WithinDepth, Above, AboveParts, ObjectShaped;
    var table, keys := TableAt(h, id), FieldKeys(fields);
    ObjectParts(h, id, fields, depth);
    ShapeOfObject(table, keys);
    var ts := seq(|fields|, i requires 0 <= i < |fields| => fields[i].value);
    forall i | 0 <= i < |fields|
      ensures Above(h, below, ts[i])
    {
      PartIsBelow(h, below, JObject(fields), ts[i]);
    }
    TreeAllComplete(h, below, ObjectValues(table, keys), ts, depth + 1);
    assert Fields(keys, ts) == fields;
  }

  lemma {:induction false} TreeAllComplete(h: Heap, ancestors: map<nat, Json>, vs: seq<LuaValue>, ts: seq<Json>, depth: nat)
    requires |vs| == |ts| && depth <= MAX_DEPTH + 1
    requires forall i :: 0 <= i < |ts| ==>
               Unfolds(h, vs[i], ts[i]) && WithinDepth(ts[i], depth) && Above(h, ancestors, ts[i])
    ensures TreeAll(h, ancestors.Keys, vs, depth) == Ok(ts)
    decreases MAX_DEPTH + 1 - depth, 1 + |ts|
  {
    hide Unfolds, WithinDepth, Above, Tree;
    if vs != [] {
      TreeComplete(h, ancestors, vs[0], ts[0], depth);
      TreeAllComplete(h, ancestors, vs[1..], ts[1..], depth);
      assert ts == [ts[0]] + ts[1..];
    }
  }

  /** The value unfolds to a finite tree within the depth cap. */
  ghost predicate CanUnfold(h: Heap, v: LuaValue) {
    exists t :: Unfolds(h, v, t) && WithinDepth(t, 0)
  }

  ghost predicate CanUnfoldAll(h: Heap, vs: seq<LuaValue>) {
    forall i :: 0 <= i < |vs| ==> CanUnfold(h, vs[i])
  }

  lemma CanUnfoldExactly(h: Heap, v: LuaValue)
    ensures CanUnfold(h, v) <==> exists t :: Unfolds(h, v, t) && Height(t) <= 32
  {
    hide Unfolds, WithinDepth, Height;
    if t :| Unfolds(h, v, t) && WithinDepth(t, 0) {
      CapIs32(t, 0);
    }
    if t :| Unfolds(h, v, t) && Height(t) <= 32 {
      CapIs32(t, 0);
    }
  }

  /** From the root the traversal succeeds exactly when the graph unfolds to a finite tree whose
      tables are arrays or string-keyed and in which no value is deeper than the cap, and the
      JSON reader turns the text it prints back into that tree. */
  lemma TraversalIsExact(h: Heap, v: LuaValue)
    ensures Tree(h, {}, v, 0).Ok? <==> CanUnfold(h, v)
    ensures forall t :: Unfolds(h, v, t) && WithinDepth(t, 0) ==> Tree(h, {}, v, 0) == Ok(t)
    ensures forall t :: Tree(h, {}, v, 0) == Ok(t) ==> ParseValue(Print(t)) == Some(Parsed(t, ""))
  {
    hide Unfolds, WithinDepth, Tree;
    if Tree(h, {}, v, 0).Ok? {
      TreeSound(h, {}, v, 0);
      var t := Tree(h, {}, v, 0).value;
      assert Unfolds(h, v, t) && WithinDepth(t, 0);
      ParsePrinted(t, "");
      assert Print(t) + "" == Print(t);
    }
    forall t | Unfolds(h, v, t) && WithinDepth(t, 0)
      ensures Tree(h, {}, v, 0) == Ok(t)
    {
      var none: map<nat, Json> := map[];
      assert none.Keys == {};
      TreeComplete(h, none, v, t, 0);
    }
  }

  lemma {:induction false} AllOkExactly(h: Heap, path: set<nat>, vs: seq<LuaValue>, depth: nat)
    requires depth <= MAX_DEPTH + 1
    ensures TreeAll(h, path, vs, depth).Ok? <==> forall i :: 0 <= i < |vs| ==> Tree(h, path, vs[i], depth).Ok?
  {
    hide Tree;
    if vs != [] {
      AllOkExactly(h, path, vs[1..], depth);
      assert vs == [vs[0]] + vs[1..];
    }
  }

  /** A list of arguments is printed exactly when every one unfolds within the cap, and the text
      reads back as the array of the trees they unfold to.  Arguments share no ancestors: a table
      passed twice is printed twice. */
  lemma VariadicIsExact(h: Heap, args: seq<LuaValue>)
    ensures TreeAll(h, {}, args, 0).Ok? <==> CanUnfoldAll(h, args)
    ensures forall ts :: TreeAll(h, {}, args, 0) == Ok(ts) ==>
              && (forall i :: 0 <= i < |ts| ==> Unfolds(h, args[i], ts[i]))
              && ParseValue("[" + PrintItems(ts) + "]") == Some(Parsed(JArray(ts), ""))
  {
    hide Unfolds, WithinDepth, CanUnfold, Tree, TreeAll, ParseValue, PrintItems;
    AllOkExactly(h, {}, args, 0);
    forall i | 0 <= i < |args|
      ensures Tree(h, {}, args[i], 0).Ok? <==> CanUnfold(h, args[i])
    {
      TraversalIsExact(h, args[i]);
    }
    if TreeAll(h, {}, args, 0).Ok? {
      var ts := TreeAll(h, {}, args, 0).value;
      TreeAllSound(h, {}, args, 0);
      ParsePrintedArray(ts, "");
      assert "[" + (PrintItems(ts) + "]" + "") == "[" + PrintItems(ts) + "]";
    }
  }
}
