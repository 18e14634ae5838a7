/** The object graph behind the task forest: nodes that are linked, given depths and flattened in
    place. */
module TaskTree {
  import opened Common
  import opened Counting
  import opened TaskForest

  class TaskNode {
    const id: string
    const title: string
    const status: string
    const owner: string
    const summary: string
    var depth: int
    var children: seq<TaskNode>

    constructor (row: Row)
      ensures id == row.id && title == row.description && status == row.status
      ensures owner == "agent" && summary == row.description && depth == 0 && children == []
    {
      id, title, status := row.id, row.description, row.status;
      owner, summary := "agent", row.description;
      depth, children := 0, [];
    }
  }

  function Pick<T>(xs: seq<T>, ks: seq<nat>): (ys: seq<T>)
    requires forall i :: 0 <= i < |ks| ==> ks[i] < |xs|
    ensures |ys| == |ks| && forall i :: 0 <= i < |ks| ==> ys[i] == xs[ks[i]]
  {
    seq(|ks|, i requires 0 <= i < |ks| => xs[ks[i]])
  }

  ghost function Links(nodes: seq<TaskNode>): seq<seq<TaskNode>>
    reads nodes
  {
    seq(|nodes|, i requires 0 <= i < |nodes| reads nodes => nodes[i].children)
  }

  ghost function Depths(nodes: seq<TaskNode>): seq<int>
    reads nodes
  {
    seq(|nodes|, i requires 0 <= i < |nodes| reads nodes => nodes[i].depth)
  }

  method WriteDepth(ghost nodes: seq<TaskNode>, ghost i: nat, n: TaskNode, depth: int)
    requires Distinct(nodes) && i < |nodes| && n == nodes[i]
    modifies n`depth
    ensures Links(nodes) == old(Links(nodes)) && Depths(nodes) == old(Depths(nodes))[i := depth]
  {
    n.depth := depth;
  }

  method AddChild(ghost nodes: seq<TaskNode>, ghost p: nat, parent: TaskNode, child: TaskNode)
    requires Distinct(nodes) && p < |nodes| && parent == nodes[p]
    modifies parent`children
    ensures Depths(nodes) == old(Depths(nodes))
    ensures Links(nodes) == old(Links(nodes))[p := old(Links(nodes))[p] + [child]]
  {
    parent.children := parent.children + [child];
  }

  /** One node per row, each with the children its row has among the first n rows. */
  ghost predicate Linked(rows: seq<Row>, nodes: seq<TaskNode>, links: seq<seq<TaskNode>>, n: nat)
    requires n <= |rows|
  {
    && |nodes| == |links| == |rows| && Distinct(nodes)
    && forall i :: 0 <= i < |rows| ==>
         nodes[i].id == rows[i].id && links[i] == Pick(nodes, Kids(rows, Some(i), n))
  }

  /** The path to a row whose chain ends. */
  ghost function PathTo(rows: seq<Row>, i: nat): (p: seq<nat>)
    requires ChainEnds(rows, i)
    ensures IsPath(rows, p) && Last(p) == i
    ensures forall q :: IsPath(rows, q) && Last(q) == i ==> q == p
  {
    var p :| IsPath(rows, p) && Last(p) == i;
    forall q | IsPath(rows, q) && Last(q) == i
      ensures q == p
    {
      PathIsUnique(rows, p, q);
    }
    p
  }

  // ---- Depths ----

  /** The row at the end of the path, or a row below it through one of the given children. */
  ghost predicate Reached(rows: seq<Row>, path: seq<nat>, kids: seq<nat>, i: nat) {
    ChainEnds(rows, i)
    && (path == PathTo(rows, i) || (path < PathTo(rows, i) && PathTo(rows, i)[|path|] in kids))
  }

  /** The row lies in the subtree at the end of the path. */
  ghost predicate Under(rows: seq<Row>, path: seq<nat>, i: nat) {
    ChainEnds(rows, i) && path <= PathTo(rows, i)
  }

  lemma AllKidsReachAll(rows: seq<Row>, path: seq<nat>, i: nat)
    requires IsPath(rows, path)
    ensures Under(rows, path, i) <==> Reached(rows, path, Kids(rows, Some(Last(path)), |rows|), i)
  {
    if Under(rows, path, i) && path < PathTo(rows, i) {
      var p := PathTo(rows, i);
      assert ParentOf(rows, p[|path|]) == Some(p[|path| - 1]);
    }
  }

  lemma NextKidReaches(rows: seq<Row>, path: seq<nat>, kids: seq<nat>, c: nat, i: nat)
    ensures Reached(rows, path, kids + [c], i) <==> Reached(rows, path, kids, i) || Under(rows, path + [c], i)
  {
    if ChainEnds(rows, i) {
      ExtendsBy(path, c, PathTo(rows, i));
    }
  }

  /** The depths once the reached rows have the number of their parent links. */
  ghost function Deepened(rows: seq<Row>, path: seq<nat>, kids: seq<nat>, ds: seq<int>): (r: seq<int>)
    ensures |r| == |ds|
  {
    seq(|ds|, i requires 0 <= i < |ds| =>
      if Reached(rows, path, kids, i) then |PathTo(rows, i)| - 1 else ds[i])
  }

  ghost function DeepenedUnder(rows: seq<Row>, path: seq<nat>, ds: seq<int>): (r: seq<int>)
    ensures |r| == |ds|
  {
    seq(|ds|, i requires 0 <= i < |ds| => if Under(rows, path, i) then |PathTo(rows, i)| - 1 else ds[i])
  }

  lemma DeepenStart(rows: seq<Row>, path: seq<nat>, ds: seq<int>)
    requires IsPath(rows, path) && |ds| == |rows|
    ensures Deepened(rows, path, [], ds) == ds[Last(path) := |path| - 1]
  {
    assert ChainEnds(rows, Last(path));
    forall i | 0 <= i < |ds|
      ensures Reached(rows, path, [], i) <==> i == Last(path)
    {
    }
  }

  lemma DeepenNext(rows: seq<Row>, path: seq<nat>, kids: seq<nat>, c: nat, ds: seq<int>)
    ensures DeepenedUnder(rows, path + [c], Deepened(rows, path, kids, ds)) == Deepened(rows, path, kids + [c], ds)
  {
    hide Reached, Under;
    forall i | 0 <= i < |ds|
      ensures DeepenedUnder(rows, path + [c], Deepened(rows, path, kids, ds))[i] ==
              Deepened(rows, path, kids + [c], ds)[i]
    {
      NextKidReaches(rows, path, kids, c, i);
      UnderEnds(rows, path + [c], i);
    }
  }

  lemma UnderEnds(rows: seq<Row>, path: seq<nat>, i: nat)
    ensures Under(rows, path, i) ==> ChainEnds(rows, i)
  {
  }

  lemma DeepenEnd(rows: seq<Row>, path: seq<nat>, ds: seq<int>)
    requires IsPath(rows, path)
    ensures Deepened(rows, path, Kids(rows, Some(Last(path)), |rows|), ds) == DeepenedUnder(rows, path, ds)
  {
    hide Reached, Under;
    forall i | 0 <= i < |ds|
      ensures Under(rows, path, i) <==> Reached(rows, path, Kids(rows, Some(Last(path)), |rows|), i)
    {
      AllKidsReachAll(rows, path, i);
    }
  }

  /** `set_depth`: every row of the subtree gets the number of its parent links, no other node
      changes, and no link changes. */
  method SetDepth(ghost rows: seq<Row>, ghost nodes: seq<TaskNode>, ghost path: seq<nat>, n: TaskNode, depth: int)
    requires Linked(rows, nodes, Links(nodes), |rows|) && IsPath(rows, path)
    requires Last(path) < |nodes| && n == nodes[Last(path)] && depth == |path| - 1
    modifies nodes
    ensures Links(nodes) == old(Links(nodes))
    ensures Depths(nodes) == DeepenedUnder(rows, path, old(Depths(nodes)))
    decreases (PathIsShort(rows, path); |rows| - |path|)
  {
    hide Deepened, DeepenedUnder, Kids, IsPath, Linked, Pick;
    PathIsShort(rows, path);
    ghost var kids, ds, links := Kids(rows, Some(Last(path)), |rows|), Depths(nodes), Links(nodes);
    LinkedNode(rows, nodes, links, path);
    DeepenStart(rows, path, ds);
    WriteDepth(nodes, Last(path), n, depth);
    assert kids[..0] == [];
    assert n.children == Links(nodes)[Last(path)];
    for k := 0 to |n.children|
      invariant Links(nodes) == links && n.children == links[Last(path)]
      invariant Depths(nodes) == Deepened(rows, path, kids[..k], ds)
    {
      KidExtends(rows, path, kids[k]);
      DeepenNext(rows, path, kids[..k], kids[k], ds);
      SetDepth(rows, nodes, path + [kids[k]], n.children[k], depth + 1);
      assert n.children == Links(nodes)[Last(path)];
      assert kids[..k + 1] == kids[..k] + [kids[k]];
    }
    assert kids[..|kids|] == kids;
    DeepenEnd(rows, path, ds);
  }

  lemma LinkedNode(rows: seq<Row>, nodes: seq<TaskNode>, links: seq<seq<TaskNode>>, path: seq<nat>)
    requires Linked(rows, nodes, links, |rows|) && IsPath(rows, path)
    ensures Last(path) < |rows| && |nodes| == |links| == |rows| && Distinct(nodes)
    ensures var kids := Kids(rows, Some(Last(path)), |rows|);
            && |links[Last(path)]| == |kids|
            && forall k :: 0 <= k < |kids| ==> kids[k] < |nodes| && links[Last(path)][k] == nodes[kids[k]]
  {
  }

  lemma KidIsPath(rows: seq<Row>, path: seq<nat>, c: nat)
    requires IsPath(rows, path) && c < |rows| && ParentOf(rows, c) == Some(Last(path))
    ensures IsPath(rows, path + [c])
  {
    hide ParentOf;
    var p := path + [c];
    assert forall i :: 0 <= i < |path| ==> p[i] == path[i];
  }

  lemma KidExtends(rows: seq<Row>, path: seq<nat>, c: nat)
    requires IsPath(rows, path) && c in Kids(rows, Some(Last(path)), |rows|)
    ensures IsPath(rows, path + [c]) && |path| < |rows|
  {
    KidIsPath(rows, path, c);
    hide IsPath, Kids;
    PathIsShort(rows, path + [c]);
  }

  // ---- Building ----

  lemma PickAppend<T>(xs: seq<T>, ks: seq<nat>, k: nat)
    requires (forall i :: 0 <= i < |ks| ==> ks[i] < |xs|) && k < |xs|
    ensures Pick(xs, ks + [k]) == Pick(xs, ks) + [xs[k]]
  {
  }

  /** The name map built from the rows finds the node of the row with that id. */
  ghost predicate Named(rows: seq<Row>, nodes: seq<TaskNode>, byId: map<string, TaskNode>) {
    && |nodes| == |rows|
    && (forall i :: 0 <= i < |rows| ==> rows[i].id in byId && byId[rows[i].id] == nodes[i])
    && forall id :: id in byId ==> exists i :: 0 <= i < |rows| && rows[i].id == id
  }

  method MakeNodes(rows: seq<Row>) returns (byId: map<string, TaskNode>, ghost nodes: seq<TaskNode>)
    requires DistinctIds(rows)
    ensures Named(rows, nodes, byId) && Distinct(nodes)
    ensures forall i :: 0 <= i < |nodes| ==>
              fresh(nodes[i]) && nodes[i].id == rows[i].id && nodes[i].children == [] && nodes[i].depth == 0
  {
    byId, nodes := map[], [];
    NoNamesYet(rows);
    hide Named, DistinctIds;
    for j := 0 to |rows|
      invariant |nodes| == j && Named(rows[..j], nodes, byId) && Distinct(nodes)
      invariant forall i :: 0 <= i < |nodes| ==>
                  fresh(nodes[i]) && nodes[i].id == rows[i].id && nodes[i].children == [] && nodes[i].depth == 0
    {
      var node := new TaskNode(rows[j]);
      NameOneMore(rows, nodes, byId, j, node);
      byId := byId[rows[j].id := node];
      nodes := nodes + [node];
    }
    assert rows[..|rows|] == rows;
    NamedAll(rows, nodes, byId);
  }

  lemma NoNamesYet(rows: seq<Row>)
    ensures Named(rows[..0], [], map[])
  {
  }

  lemma NamedAll(rows: seq<Row>, nodes: seq<TaskNode>, byId: map<string, TaskNode>)
    requires Named(rows, nodes, byId)
    ensures |nodes| == |rows|
  {
  }

  lemma NameOneMore(rows: seq<Row>, nodes: seq<TaskNode>, byId: map<string, TaskNode>, j: nat, node: TaskNode)
    requires j < |rows| && DistinctIds(rows) && Named(rows[..j], nodes, byId)
    ensures Named(rows[..j + 1], nodes + [node], byId[rows[j].id := node])
  {
    assert forall i :: 0 <= i < j ==> rows[..j][i] == rows[i] && rows[..j + 1][i] == rows[i];
    var byId', later := byId[rows[j].id := node], rows[..j + 1];
    forall id | id in byId'
      ensures exists i :: 0 <= i < |later| && later[i].id == id
    {
      if id == rows[j].id {
        assert later[j].id == id;
      } else {
        var i :| 0 <= i < j && rows[..j][i].id == id;
        assert later[i].id == id;
      }
    }
  }

  /** One row of the linking loop on values: its node joins its parent's children or the roots. */
  ghost function LinkedTo(rows: seq<Row>, nodes: seq<TaskNode>, links: seq<seq<TaskNode>>, j: nat): seq<seq<TaskNode>>
    requires |nodes| == |links| == |rows| && j < |rows|
  {
    match ParentOf(rows, j)
    case Some(p) => links[p := links[p] + [nodes[j]]]
    case None => links
  }

  lemma PickKidsOneMore<T>(rows: seq<Row>, nodes: seq<T>, p: Option<nat>, j: nat)
    requires |nodes| == |rows| && j < |rows|
    ensures Pick(nodes, Kids(rows, p, j + 1)) ==
            Pick(nodes, Kids(rows, p, j)) + if ParentOf(rows, j) == p then [nodes[j]] else []
  {
    PickAppend(nodes, Kids(rows, p, j), j);
  }

  lemma LinkStep(rows: seq<Row>, nodes: seq<TaskNode>, links: seq<seq<TaskNode>>, j: nat)
    requires j < |rows| && Linked(rows, nodes, links, j)
    ensures Linked(rows, nodes, LinkedTo(rows, nodes, links, j), j + 1)
    ensures Pick(nodes, Kids(rows, None, j + 1)) ==
            Pick(nodes, Kids(rows, None, j)) + if ParentOf(rows, j).None? then [nodes[j]] else []
  {
    hide Kids, Pick, ParentOf, Distinct;
    forall i | 0 <= i < |rows|
      ensures LinkedTo(rows, nodes, links, j)[i] == Pick(nodes, Kids(rows, Some(i), j + 1))
    {
      PickKidsOneMore(rows, nodes, Some(i), j);
    }
    PickKidsOneMore(rows, nodes, None, j);
  }

  method LinkNodes(rows: seq<Row>, byId: map<string, TaskNode>, ghost nodes: seq<TaskNode>)
    returns (roots: seq<TaskNode>)
    requires |nodes| == |rows| && Named(rows, nodes, byId) && Linked(rows, nodes, Links(nodes), 0)
    modifies nodes
    ensures Linked(rows, nodes, Links(nodes), |rows|) && Depths(nodes) == old(Depths(nodes))
    ensures roots == Pick(nodes, Kids(rows, None, |rows|))
  {
    hide Kids, Linked, Named, Pick;
    roots := [];
    NoRootsYet(rows, nodes);
    for j := 0 to |rows|
      invariant |nodes| == |rows| && Linked(rows, nodes, Links(nodes), j) && Depths(nodes) == old(Depths(nodes))
      invariant roots == Pick(nodes, Kids(rows, None, j))
    {
      ghost var links := Links(nodes);
      LinkStep(rows, nodes, links, j);
      NamedParent(rows, nodes, byId, links, j);
      var node := byId[rows[j].id];
      if rows[j].parent != "" && rows[j].parent in byId {
        AddChild(nodes, ParentOf(rows, j).value, byId[rows[j].parent], node);
      } else {
        roots := roots + [node];
      }
    }
  }

  lemma NoRootsYet(rows: seq<Row>, nodes: seq<TaskNode>)
    requires |nodes| == |rows|
    ensures Pick(nodes, Kids(rows, None, 0)) == []
  {
  }

  /** The lookups of the linking loop find the row's node and its parent's. */
  lemma NamedParent(rows: seq<Row>, nodes: seq<TaskNode>, byId: map<string, TaskNode>, links: seq<seq<TaskNode>>, j: nat)
    requires j < |rows| && Named(rows, nodes, byId) && Linked(rows, nodes, links, j)
    ensures Distinct(nodes) && |links| == |nodes| && rows[j].id in byId && byId[rows[j].id] == nodes[j]
    ensures ParentOf(rows, j).Some? <==> rows[j].parent != "" && rows[j].parent in byId
    ensures ParentOf(rows, j).Some? ==> byId[rows[j].parent] == nodes[ParentOf(rows, j).value]
  {
  }

  /** `loadTaskTreeFromDb` from the row list on. */
  method LoadTaskTree(rows: seq<Row>) returns (roots: seq<TaskNode>, ghost nodes: seq<TaskNode>)
    requires DistinctIds(rows)
    ensures Linked(rows, nodes, Links(nodes), |rows|)
    ensures roots == Pick(nodes, Kids(rows, None, |rows|))
    ensures forall i :: 0 <= i < |nodes| ==> fresh(nodes[i])
    ensures forall i :: 0 <= i < |nodes| ==>
              Depths(nodes)[i] == if ChainEnds(rows, i) then |PathTo(rows, i)| - 1 else 0
  {
    hide Linked, Pick, Kids, ChainEnds, Named, Distinct;
    var byId;
    byId, nodes := MakeNodes(rows);
    NamedAll(rows, nodes, byId);
    NothingLinked(rows, nodes, Links(nodes));
    roots := LinkNodes(rows, byId, nodes);
    SetAllDepths(rows, nodes, roots);
  }

  method SetAllDepths(ghost rows: seq<Row>, ghost nodes: seq<TaskNode>, roots: seq<TaskNode>)
    requires |nodes| == |rows| && Linked(rows, nodes, Links(nodes), |rows|) && roots == Pick(nodes, Kids(rows, None, |rows|))
    modifies nodes
    ensures Links(nodes) == old(Links(nodes))
    ensures forall i :: 0 <= i < |nodes| ==>
              Depths(nodes)[i] == if ChainEnds(rows, i) then |PathTo(rows, i)| - 1 else old(Depths(nodes))[i]
  {
    hide Kids, Pick, Deepened, DeepenedUnder, Reached, Linked, ChainEnds;
    ghost var kids, ds, links := Kids(rows, None, |rows|), Depths(nodes), Links(nodes);
    DeepenRootsStart(rows, ds);
    assert kids[..0] == [];
    for k := 0 to |roots|
      invariant Links(nodes) == links
      invariant Depths(nodes) == Deepened(rows, [], kids[..k], ds)
    {
      RootIsPath(rows, kids[k]);
      DeepenNext(rows, [], kids[..k], kids[k], ds);
      assert [] + [kids[k]] == [kids[k]];
      SetDepth(rows, nodes, [kids[k]], roots[k], 0);
      assert kids[..k + 1] == kids[..k] + [kids[k]];
    }
    assert kids[..|kids|] == kids;
    DeepenRootsEnd(rows, ds);
  }

  lemma NothingLinked(rows: seq<Row>, nodes: seq<TaskNode>, links: seq<seq<TaskNode>>)
    requires |nodes| == |links| == |rows| && Distinct(nodes)
    requires forall i :: 0 <= i < |rows| ==> nodes[i].id == rows[i].id && links[i] == []
    ensures Linked(rows, nodes, links, 0)
  {
  }

  lemma RootIsPath(rows: seq<Row>, c: nat)
    requires c in Kids(rows, None, |rows|)
    ensures IsPath(rows, [c])
  {
  }

  lemma DeepenRootsStart(rows: seq<Row>, ds: seq<int>)
    ensures Deepened(rows, [], [], ds) == ds
  {
  }

  lemma DeepenRootsEnd(rows: seq<Row>, ds: seq<int>)
    requires |ds| == |rows|
    ensures forall i :: 0 <= i < |ds| ==>
              Deepened(rows, [], Kids(rows, None, |rows|), ds)[i] ==
                if ChainEnds(rows, i) then |PathTo(rows, i)| - 1 else ds[i]
  {
    forall i | 0 <= i < |ds|
      ensures ChainEnds(rows, i) ==> Reached(rows, [], Kids(rows, None, |rows|), i)
    {
      if ChainEnds(rows, i) {
        assert PathTo(rows, i)[0] in Kids(rows, None, |rows|);
      }
    }
  }

  // ---- Flattening ----

  function Lasts(ps: seq<seq<nat>>): (ks: seq<nat>)
    ensures |ks| == |ps| && forall i :: 0 <= i < |ps| ==> ks[i] == Last(ps[i])
  {
    seq(|ps|, i requires 0 <= i < |ps| => Last(ps[i]))
  }

  /** The depth-first walk appends the nodes of the subtree in preorder. */
  method Dfs(ghost rows: seq<Row>, ghost nodes: seq<TaskNode>, ghost path: seq<nat>, n: TaskNode, out: seq<TaskNode>)
    returns (out': seq<TaskNode>)
    requires Linked(rows, nodes, Links(nodes), |rows|) && IsPath(rows, path)
    requires Last(path) < |nodes| && n == nodes[Last(path)]
    ensures Shows(nodes, Preorder(rows, path), out, out')
    decreases (PathIsShort(rows, path); |rows| - |path|)
  {
    hide Kids, Linked, Pick, Shows, Preorder, PreorderAll, IsPath;
    PathIsShort(rows, path);
    ghost var kids, links := Kids(rows, Some(Last(path)), |rows|), Links(nodes);
    LinkedNode(rows, nodes, links, path);
    KidsExtend(rows, path);
    PreorderParts(rows, path, n, nodes, out);
    out' := out + [n];
    assert n.children == links[Last(path)];
    ghost var seen := [path];
    assert kids[0..] == kids;
    for k := 0 to |n.children|
      invariant Shows(nodes, seen, out, out')
      invariant forall c :: c in kids[k..] ==> IsPath(rows, path + [c])
      invariant seen + PreorderAll(rows, path, kids[k..]) == Preorder(rows, path)
    {
      PreorderNext(rows, path, kids[k..]);
      assert kids[k..][1..] == kids[k + 1..];
      ghost var before := out';
      out' := Dfs(rows, nodes, path + [kids[k]], n.children[k], out');
      ShowsMore(nodes, seen, Preorder(rows, path + [kids[k]]), out, before, out');
      assert seen + (Preorder(rows, path + [kids[k]]) + PreorderAll(rows, path, kids[k + 1..])) ==
             (seen + Preorder(rows, path + [kids[k]])) + PreorderAll(rows, path, kids[k + 1..]);
      seen := seen + Preorder(rows, path + [kids[k]]);
    }
    NoMoreKids(rows, path, kids[|kids|..]);
    assert seen + [] == seen;
  }

  /** The output grew by the nodes at the ends of the paths. */
  ghost predicate Shows(nodes: seq<TaskNode>, ps: seq<seq<nat>>, out: seq<TaskNode>, out': seq<TaskNode>) {
    (forall i :: 0 <= i < |ps| ==> Last(ps[i]) < |nodes|) && out' == out + Pick(nodes, Lasts(ps))
  }

  lemma ShowsMore(nodes: seq<TaskNode>, ps: seq<seq<nat>>, qs: seq<seq<nat>>,
                  a: seq<TaskNode>, b: seq<TaskNode>, c: seq<TaskNode>)
    requires Shows(nodes, ps, a, b) && Shows(nodes, qs, b, c)
    ensures Shows(nodes, ps + qs, a, c)
  {
    assert Pick(nodes, Lasts(ps + qs)) == Pick(nodes, Lasts(ps)) + Pick(nodes, Lasts(qs));
  }

  lemma KidsExtend(rows: seq<Row>, path: seq<nat>)
    requires IsPath(rows, path)
    ensures forall c :: c in Kids(rows, Some(Last(path)), |rows|) ==> IsPath(rows, path + [c])
  {
    hide IsPath, Kids;
    forall c | c in Kids(rows, Some(Last(path)), |rows|)
      ensures IsPath(rows, path + [c])
    {
      KidIsPath(rows, path, c);
    }
  }

  lemma PreorderParts(rows: seq<Row>, path: seq<nat>, n: TaskNode, nodes: seq<TaskNode>, out: seq<TaskNode>)
    requires IsPath(rows, path) && |path| <= |rows| && Last(path) < |nodes| && n == nodes[Last(path)]
    requires forall c :: c in Kids(rows, Some(Last(path)), |rows|) ==> IsPath(rows, path + [c])
    ensures Preorder(rows, path) == [path] + PreorderAll(rows, path, Kids(rows, Some(Last(path)), |rows|))
    ensures Shows(nodes, [path], out, out + [n])
  {
    hide PreorderAll, IsPath, Kids;
  }

  lemma PreorderNext(rows: seq<Row>, above: seq<nat>, cs: seq<nat>)
    requires |above| <= |rows| && cs != [] && forall c :: c in cs ==> IsPath(rows, above + [c])
    ensures IsPath(rows, above + [cs[0]]) && |above| < |rows|
    ensures PreorderAll(rows, above, cs) == Preorder(rows, above + [cs[0]]) + PreorderAll(rows, above, cs[1..])
  {
    hide IsPath, Preorder;
    assert cs[0] in cs;
    PathIsShort(rows, above + [cs[0]]);
  }

  lemma NoMoreKids(rows: seq<Row>, above: seq<nat>, cs: seq<nat>)
    requires cs == [] && |above| <= |rows|
    ensures PreorderAll(rows, above, cs) == []
  {
  }

  /** `flattenTasks`: the nodes of the rows whose chain ends, in display order. */
  method FlattenTasks(ghost rows: seq<Row>, ghost nodes: seq<TaskNode>, roots: seq<TaskNode>) returns (out: seq<TaskNode>)
    requires Linked(rows, nodes, Links(nodes), |rows|) && roots == Pick(nodes, Kids(rows, None, |rows|))
    ensures |out| == |ListedRows(rows)|
    ensures forall i :: 0 <= i < |out| ==> ListedRows(rows)[i] < |nodes| && out[i] == nodes[ListedRows(rows)[i]]
  {
    hide Linked, Shows, Preorder, PreorderAll, IsPath;
    out := [];
    ghost var kids := Kids(rows, None, |rows|);
    ghost var seen: seq<seq<nat>> := [];
    NothingShown(nodes);
    RootsExtend(rows);
    OneNodePerRow(rows, nodes, Links(nodes));
    assert kids[0..] == kids && [] + PreorderAll(rows, [], kids) == PreorderAll(rows, [], kids);
    for k := 0 to |roots|
      invariant Shows(nodes, seen, [], out)
      invariant forall c :: c in kids[k..] ==> IsPath(rows, [] + [c])
      invariant seen + PreorderAll(rows, [], kids[k..]) == Listing(rows)
    {
      PreorderNext(rows, [], kids[k..]);
      assert kids[k..][1..] == kids[k + 1..];
      ghost var before := out;
      out := Dfs(rows, nodes, [] + [kids[k]], roots[k], out);
      ShowsMore(nodes, seen, Preorder(rows, [] + [kids[k]]), [], before, out);
      assert seen + (Preorder(rows, [] + [kids[k]]) + PreorderAll(rows, [], kids[k + 1..])) ==
             (seen + Preorder(rows, [] + [kids[k]])) + PreorderAll(rows, [], kids[k + 1..]);
      seen := seen + Preorder(rows, [] + [kids[k]]);
    }
    NoMoreKids(rows, [], kids[|kids|..]);
    assert seen + [] == seen;
    ShowsListing(rows, nodes, out);
  }

  lemma OneNodePerRow(rows: seq<Row>, nodes: seq<TaskNode>, links: seq<seq<TaskNode>>)
    requires Linked(rows, nodes, links, |rows|)
    ensures |nodes| == |rows|
  {
  }

  lemma NothingShown(nodes: seq<TaskNode>)
    ensures Shows(nodes, [], [], [])
  {
  }

  lemma RootsExtend(rows: seq<Row>)
    ensures forall c :: c in Kids(rows, None, |rows|) ==> IsPath(rows, [] + [c])
  {
  }

  lemma ShowsListing(rows: seq<Row>, nodes: seq<TaskNode>, out: seq<TaskNode>)
    requires Shows(nodes, Listing(rows), [], out)
    ensures |out| == |ListedRows(rows)|
    ensures forall i :: 0 <= i < |out| ==> ListedRows(rows)[i] < |nodes| && out[i] == nodes[ListedRows(rows)[i]]
  {
    hide Listing, IsPath;
    assert out == Pick(nodes, Lasts(Listing(rows)));
  }
}
