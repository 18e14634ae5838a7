/** Strictly ascending sequences, and the sort the serializer applies to the entries of a table. */
module SortedEntries {
  import opened Counting

  datatype Entry<K, V> = Entry(key: K, value: V)

  ghost predicate StrictTotal<K(!new)>(lt: (K, K) -> bool) {
    && (forall a :: !lt(a, a))
    && (forall a, b :: a == b || lt(a, b) || lt(b, a))
    && (forall a, b, c :: lt(a, b) && lt(b, c) ==> lt(a, c))
  }

  ghost predicate Ascending<K>(lt: (K, K) -> bool, ks: seq<K>) {
    forall i, j :: 0 <= i < j < |ks| ==> lt(ks[i], ks[j])
  }

  function Keys<K, V>(es: seq<Entry<K, V>>): (ks: seq<K>)
    ensures |ks| == |es| && forall i :: 0 <= i < |es| ==> ks[i] == es[i].key
  {
    seq(|es|, i requires 0 <= i < |es| => es[i].key)
  }

  function Values<K, V>(es: seq<Entry<K, V>>): (vs: seq<V>)
    ensures |vs| == |es| && forall i :: 0 <= i < |es| ==> vs[i] == es[i].value
  {
    seq(|es|, i requires 0 <= i < |es| => es[i].value)
  }

  /** Insertion sort: any sort gives the same answer on distinct keys (AscendingIsUnique). */
  function InsertBy<K, V>(lt: (K, K) -> bool, e: Entry<K, V>, es: seq<Entry<K, V>>): seq<Entry<K, V>> {
    if es == [] || lt(e.key, es[0].key) then [e] + es else [es[0]] + InsertBy(lt, e, es[1..])
  }

  function SortBy<K, V>(lt: (K, K) -> bool, es: seq<Entry<K, V>>): seq<Entry<K, V>> {
    if es == [] then [] else InsertBy(lt, es[0], SortBy(lt, es[1..]))
  }

  /** Each entry's key is below the keys of all later entries. */
  ghost predicate Sorted<K, V>(lt: (K, K) -> bool, es: seq<Entry<K, V>>) {
    es == [] || ((forall x :: x in es[1..] ==> lt(es[0].key, x.key)) && Sorted(lt, es[1..]))
  }

  lemma {:induction false} SortedIsAscending<K(!new), V(!new)>(lt: (K, K) -> bool, es: seq<Entry<K, V>>)
    requires Sorted(lt, es)
    ensures Ascending(lt, Keys(es))
  {
    if es != [] {
      var tail := es[1..];
      SortedIsAscending(lt, tail);
      forall i, j | 0 <= i < j < |es|
        ensures lt(Keys(es)[i], Keys(es)[j])
      {
        if i == 0 {
          assert tail[j - 1] in tail;
        } else {
          assert lt(Keys(tail)[i - 1], Keys(tail)[j - 1]);
        }
      }
    }
  }

  lemma {:induction false} InsertKeepsSorted<K(!new), V(!new)>(lt: (K, K) -> bool, e: Entry<K, V>, es: seq<Entry<K, V>>)
    requires StrictTotal(lt) && Sorted(lt, es) && (forall x :: x in es ==> x.key != e.key)
    ensures Sorted(lt, InsertBy(lt, e, es)) && |InsertBy(lt, e, es)| == |es| + 1
    ensures forall x :: x in InsertBy(lt, e, es) <==> x == e || x in es
  {
    if es == [] || lt(e.key, es[0].key) {
      assert ([e] + es)[1..] == es;
      assert es != [] ==> es == [es[0]] + es[1..];
    } else {
      InsertKeepsSorted(lt, e, es[1..]);
      assert es == [es[0]] + es[1..];
      assert InsertBy(lt, e, es)[1..] == InsertBy(lt, e, es[1..]);
    }
  }

  /** Sorting distinct keys gives the same entries in strictly ascending order. */
  lemma {:induction false} SortIsSorted<K(!new), V(!new)>(lt: (K, K) -> bool, es: seq<Entry<K, V>>)
    requires StrictTotal(lt) && Distinct(Keys(es))
    ensures Sorted(lt, SortBy(lt, es)) && |SortBy(lt, es)| == |es|
    ensures forall x :: x in SortBy(lt, es) <==> x in es
  {
    if es != [] {
      var tail := es[1..];
      assert forall i :: 0 <= i < |tail| ==> Keys(tail)[i] == Keys(es)[i + 1];
      SortIsSorted(lt, tail);
      forall x | x in tail
        ensures x.key != es[0].key
      {
        var j :| 0 <= j < |tail| && tail[j] == x;
        assert Keys(es)[0] != Keys(es)[j + 1];
      }
      InsertKeepsSorted(lt, es[0], SortBy(lt, tail));
      assert es == [es[0]] + tail;
    }
  }

  /** The head of an ascending sequence is its least element, and does not come again. */
  lemma HeadIsLeast<K(!new)>(lt: (K, K) -> bool, a: seq<K>)
    requires StrictTotal(lt) && Ascending(lt, a) && a != []
    ensures forall k :: k in a ==> k == a[0] || lt(a[0], k)
    ensures forall k :: k in a[1..] <==> k in a && k != a[0]
    ensures Ascending(lt, a[1..])
  {
    assert a == [a[0]] + a[1..];
  }

  /** A set of keys has one strictly ascending enumeration. */
  lemma {:induction false} AscendingIsUnique<K(!new)>(lt: (K, K) -> bool, a: seq<K>, b: seq<K>)
    requires StrictTotal(lt) && Ascending(lt, a) && Ascending(lt, b)
    requires forall k :: k in a <==> k in b
    ensures a == b
  {
    assert forall i :: 0 <= i < |a| ==> a[i] in b;
    assert forall i :: 0 <= i < |b| ==> b[i] in a;
    if a != [] {
      HeadIsLeast(lt, a);
      HeadIsLeast(lt, b);
      assert a[0] == b[0];
      AscendingIsUnique(lt, a[1..], b[1..]) by {
        hide Ascending;
      }
      assert a == [a[0]] + a[1..] && b == [b[0]] + b[1..];
    }
  }

  // ---- The byte-wise order of std::string ----

  predicate Less(a: string, b: string) {
    b != "" && (a == "" || a[0] < b[0] || (a[0] == b[0] && Less(a[1..], b[1..])))
  }

  lemma {:induction false} LessIrreflexive(a: string)
    ensures !Less(a, a)
  {
    if a != "" {
      LessIrreflexive(a[1..]);
    }
  }

  lemma {:induction false} LessTotal(a: string, b: string)
    ensures a == b || Less(a, b) || Less(b, a)
  {
    if a != "" && b != "" && a[0] == b[0] {
      LessTotal(a[1..], b[1..]);
      assert a == [a[0]] + a[1..] && b == [b[0]] + b[1..];
    }
  }

  lemma {:induction false} LessTransitive(a: string, b: string, c: string)
    requires Less(a, b) && Less(b, c)
    ensures Less(a, c)
  {
    if a != "" && a[0] == b[0] == c[0] {
      LessTransitive(a[1..], b[1..], c[1..]);
    }
  }

  lemma LessIsStrictTotal()
    ensures StrictTotal(Less)
  {
    forall a {
      LessIrreflexive(a);
    }
    forall a, b {
      LessTotal(a, b);
    }
    forall a, b, c | Less(a, b) && Less(b, c) {
      LessTransitive(a, b, c);
    }
  }

  /** The order is that of the first byte that differs; a proper prefix comes first. */
  lemma {:induction false} LessIsBytewise(a: string, b: string)
    ensures Less(a, b) <==>
            || (|a| < |b| && a <= b)
            || exists k :: 0 <= k < |a| && k < |b| && a[..k] == b[..k] && a[k] < b[k]
  {
    if a != "" && b != "" {
      var x, y := a[1..], b[1..];
      if a[0] == b[0] {
        LessIsBytewise(x, y);
        assert a == [a[0]] + x && b == [b[0]] + y;
        if k :| 0 <= k < |x| && k < |y| && x[..k] == y[..k] && x[k] < y[k] {
          assert a[..k + 1] == [a[0]] + x[..k] && b[..k + 1] == [b[0]] + y[..k];
          assert a[k + 1] < b[k + 1];
        }
        if k :| 0 <= k < |a| && k < |b| && a[..k] == b[..k] && a[k] < b[k] {
          assert k > 0 && x[..k - 1] == a[..k][1..] && y[..k - 1] == b[..k][1..] && x[k - 1] < y[k - 1];
        }
      } else {
        assert a[..0] == b[..0];
        assert forall k :: 0 < k <= |a| && k <= |b| ==> a[..k][0] != b[..k][0];
      }
    }
  }

  const IndexLess: (nat, nat) -> bool := (a, b) => a < b
}
