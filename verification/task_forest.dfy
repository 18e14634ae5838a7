/** The task forest of the cockpit: built from a list of rows with arbitrary parent links, then
    given depths and flattened for display. */
module TaskForest {
  import opened Common
  import opened Counting

  datatype Row = Row(id: string, parent: string, description: string, status: string)

  /** `id` is the primary key of the table. */
  ghost predicate DistinctIds(rows: seq<Row>) {
    forall i, j :: 0 <= i < j < |rows| ==> rows[i].id != rows[j].id
  }

  function IndexOf(rows: seq<Row>, id: string): (r: Option<nat>)
    ensures r.Some? ==> r.value < |rows| && rows[r.value].id == id
    ensures r.None? ==> forall i :: 0 <= i < |rows| ==> rows[i].id != id
  {
    if rows == [] then None
    else
      var n := |rows| - 1;
      match IndexOf(rows[..n], id)
      case Some(i) => Some(i)
      case None => if rows[n].id == id then Some(n) else None
  }

  /** The row a row is filed under; a root has an empty or an unknown parent. */
  function ParentOf(rows: seq<Row>, j: nat): (r: Option<nat>)
    requires j < |rows|
    ensures r.Some? ==> r.value < |rows|
  {
    if rows[j].parent == "" then None else IndexOf(rows, rows[j].parent)
  }

  /** The rows before n filed under `p`, in row order; the roots when `p` is None. */
  function Kids(rows: seq<Row>, p: Option<nat>, n: nat): (ks: seq<nat>)
    requires n <= |rows|
    ensures forall c: nat :: c in ks <==> c < n && ParentOf(rows, c) == p
    ensures forall i :: 0 <= i < |ks| ==> ks[i] < n
    ensures forall i, j :: 0 <= i < j < |ks| ==> ks[i] < ks[j]
  {
    if n == 0 then []
    else Kids(rows, p, n - 1) + if ParentOf(rows, n - 1) == p then [n - 1] else []
  }

  // ---- The reference: parent chains that end ----

  /** A chain of rows from a root down to its last row, each filed under the one before. */
  ghost predicate IsPath(rows: seq<Row>, p: seq<nat>) {
    && p != []
    && (forall i :: 0 <= i < |p| ==> p[i] < |rows|)
    && ParentOf(rows, p[0]) == None
    && forall i :: 0 < i < |p| ==> ParentOf(rows, p[i]) == Some(p[i - 1])
  }

  /** The row a path leads to. */
  function Last(p: seq<nat>): nat {
    if p == [] then 0 else p[|p| - 1]
  }

  /** The parent chain of the row ends at a root. */
  ghost predicate ChainEnds(rows: seq<Row>, j: nat) {
    exists p: seq<nat> :: IsPath(rows, p) && Last(p) == j
  }

  lemma {:induction false} PathIsUnique(rows: seq<Row>, p: seq<nat>, q: seq<nat>)
    requires IsPath(rows, p) && IsPath(rows, q) && Last(p) == Last(q)
    ensures p == q
    decreases |p|
  {
    assert |p| > 1 ==> ParentOf(rows, p[|p| - 1]) == Some(p[|p| - 2]);
    assert |q| > 1 ==> ParentOf(rows, q[|q| - 1]) == Some(q[|q| - 2]);
    if |p| > 1 {
      PathIsUnique(rows, p[..|p| - 1], q[..|q| - 1]);
      assert p == p[..|p| - 1] + [Last(p)] && q == q[..|q| - 1] + [Last(q)];
    }
  }

  /** No row occurs twice on a path, so a path is no longer than the list of rows. */
  lemma PathIsShort(rows: seq<Row>, p: seq<nat>)
    requires IsPath(rows, p)
    ensures |p| <= |rows|
  {
    forall i, j | 0 <= i < j < |p|
      ensures p[i] != p[j]
    {
      if p[i] == p[j] {
        PathIsUnique(rows, p[..i + 1], p[..j + 1]);
      }
    }
    DistinctBelow(p, |rows|);
  }

  /** The display order of siblings and descendants: a row comes right before what is below it,
      siblings in row order. */
  predicate PathLess(a: seq<nat>, b: seq<nat>) {
    b != [] && (a == [] || a[0] < b[0] || (a[0] == b[0] && PathLess(a[1..], b[1..])))
  }

  // ---- The traversal as a function ----

  /** The paths of a row and of everything below it, in preorder. */
  function Preorder(rows: seq<Row>, path: seq<nat>): seq<seq<nat>>
    requires IsPath(rows, path)
    decreases (PathIsShort(rows, path); 2 * (|rows| - |path|) + 1), 0
  {
    PathIsShort(rows, path);
    [path] + PreorderAll(rows, path, Kids(rows, Some(Last(path)), |rows|))
  }

  function PreorderAll(rows: seq<Row>, above: seq<nat>, cs: seq<nat>): seq<seq<nat>>
    requires |above| <= |rows| && forall c :: c in cs ==> IsPath(rows, above + [c])
    decreases 2 * (|rows| - |above|), |cs|
  {
    if cs == [] then []
    else
      assert cs[0] in cs;
      PathIsShort(rows, above + [cs[0]]);
      Preorder(rows, above + [cs[0]]) + PreorderAll(rows, above, cs[1..])
  }

  function Listing(rows: seq<Row>): seq<seq<nat>> {
    PreorderAll(rows, [], Kids(rows, None, |rows|))
  }

  // ---- The listing is exact and in order ----

  lemma {:induction false} PrefixIsLess(a: seq<nat>, b: seq<nat>)
    requires a < b
    ensures PathLess(a, b)
  {
    if a != [] {
      PrefixIsLess(a[1..], b[1..]);
    }
  }

  lemma {:induction false} DivergingIsLess(a: seq<nat>, b: seq<nat>, k: nat)
    requires k < |a| && k < |b| && a[..k] == b[..k] && a[k] < b[k]
    ensures PathLess(a, b)
  {
    if k > 0 {
      assert a[0] == a[..k][0] == b[..k][0] == b[0];
      assert a[1..][..k - 1] == a[..k][1..] && b[1..][..k - 1] == b[..k][1..];
      DivergingIsLess(a[1..], b[1..], k - 1);
    }
  }

  ghost predicate InOrder(ps: seq<seq<nat>>) {
    forall i, j :: 0 <= i < j < |ps| ==> PathLess(ps[i], ps[j])
  }

  lemma JoinInOrder(ps: seq<seq<nat>>, qs: seq<seq<nat>>)
    requires InOrder(ps) && InOrder(qs) && forall p, q :: p in ps && q in qs ==> PathLess(p, q)
    ensures InOrder(ps + qs)
  {
  }

  lemma {:induction false} PreorderExact(rows: seq<Row>, path: seq<nat>)
    requires IsPath(rows, path)
    ensures forall p :: p in Preorder(rows, path) <==> IsPath(rows, p) && path <= p
    ensures InOrder(Preorder(rows, path))
    decreases (PathIsShort(rows, path); 2 * (|rows| - |path|) + 1), 0
  {
    hide PathLess;
    PathIsShort(rows, path);
    var cs := Kids(rows, Some(Last(path)), |rows|);
    PreorderAllExact(rows, path, cs);
    var below := PreorderAll(rows, path, cs);
    forall p
      ensures p in Preorder(rows, path) <==> IsPath(rows, p) && path <= p
    {
      assert p in Preorder(rows, path) <==> p == path || p in below;
      assert path <= p <==> path == p || path < p;
      if IsPath(rows, p) && path < p {
        assert ParentOf(rows, p[|path|]) == Some(p[|path| - 1]);
        assert p[|path|] in cs;
      }
    }
    forall p | p in below
      ensures PathLess(path, p)
    {
      PrefixIsLess(path, p);
    }
    JoinInOrder([path], below);
  }

  lemma {:induction false} PreorderAllExact(rows: seq<Row>, above: seq<nat>, cs: seq<nat>)
    requires |above| <= |rows| && forall c :: c in cs ==> IsPath(rows, above + [c])
    requires forall i, j :: 0 <= i < j < |cs| ==> cs[i] < cs[j]
    ensures forall p :: p in PreorderAll(rows, above, cs) <==> IsPath(rows, p) && above < p && p[|above|] in cs
    ensures InOrder(PreorderAll(rows, above, cs))
    decreases 2 * (|rows| - |above|), |cs|
  {
    hide PathLess, IsPath;
    if cs != [] {
      var c := cs[0];
      assert c in cs;
      PathIsShort(rows, above + [c]);
      PreorderExact(rows, above + [c]);
      PreorderAllExact(rows, above, cs[1..]);
      var first, rest := Preorder(rows, above + [c]), PreorderAll(rows, above, cs[1..]);
      forall p
        ensures p in first <==> IsPath(rows, p) && above < p && p[|above|] == c
      {
        ExtendsBy(above, c, p);
      }
      forall p, q | p in first && q in rest
        ensures PathLess(p, q)
      {
        assert c < q[|above|] by {
          var i :| 0 <= i < |cs[1..]| && cs[1..][i] == q[|above|];
          assert cs[0] < cs[i + 1];
        }
        DivergingIsLess(p, q, |above|);
      }
      JoinInOrder(first, rest);
    }
  }

  lemma ExtendsBy(above: seq<nat>, c: nat, p: seq<nat>)
    ensures above + [c] <= p <==> above < p && p[|above|] == c
  {
    if above < p && p[|above|] == c {
      assert p[..|above| + 1] == above + [c];
    }
  }

  lemma {:induction false} OrderIsStrict(a: seq<nat>)
    ensures !PathLess(a, a)
  {
    if a != [] {
      OrderIsStrict(a[1..]);
    }
  }

  /** For every list of rows, whatever its parent links, the listing is exactly the paths that end
      at a root, in display order; so each row whose chain ends is listed once, with its depth. */
  lemma ListingIsExact(rows: seq<Row>)
    ensures forall p :: p in Listing(rows) <==> IsPath(rows, p)
    ensures InOrder(Listing(rows))
  {
    hide PathLess;
    var roots := Kids(rows, None, |rows|);
    PreorderAllExact(rows, [], roots);
    forall p
      ensures p in Listing(rows) <==> IsPath(rows, p)
    {
      assert IsPath(rows, p) ==> p[0] in roots && [] < p;
    }
  }

  /** The rows of the listing, top to bottom. */
  ghost function ListedRows(rows: seq<Row>): (js: seq<nat>)
    ensures |js| == |Listing(rows)|
    ensures forall i :: 0 <= i < |js| ==> IsPath(rows, Listing(rows)[i]) && js[i] == Last(Listing(rows)[i])
  {
    ListingIsExact(rows);
    assert forall i :: 0 <= i < |Listing(rows)| ==> Listing(rows)[i] in Listing(rows);
    seq(|Listing(rows)|, i requires 0 <= i < |Listing(rows)| => Last(Listing(rows)[i]))
  }

  lemma EachRowListedOnce(rows: seq<Row>)
    ensures Distinct(ListedRows(rows))
    ensures forall j :: j in ListedRows(rows) <==> ChainEnds(rows, j)
  {
    hide PathLess, Listing, IsPath;
    ListingIsExact(rows);
    var ps, js := Listing(rows), ListedRows(rows);
    forall i, k | 0 <= i < k < |js|
      ensures js[i] != js[k]
    {
      OrderIsStrict(ps[i]);
      if js[i] == js[k] {
        PathIsUnique(rows, ps[i], ps[k]);
      }
    }
    forall j
      ensures j in js <==> ChainEnds(rows, j)
    {
      if ChainEnds(rows, j) {
        var p :| IsPath(rows, p) && Last(p) == j;
        assert p in ps;
        var i :| 0 <= i < |ps| && ps[i] == p;
        assert js[i] == j;
      }
    }
  }
}
