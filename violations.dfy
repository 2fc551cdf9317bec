/**
 * The output of the schema engine's `iter_errors`, taken as given: a sequence of
 * violations, each located by a path into the document. This module orders paths
 * the way Python compares them and sorts violations by path, stably, as the
 * built-in `sorted(..., key=lambda e: e.path)` does.
 */
module Violations {
  import opened Wrappers
  import opened Json

  /** One step of a path: a key into an object or an index into an array. */
  datatype Segment = Key(name: string) | Index(index: nat)

  /**
   * One violation reported by the engine. The validator is the failing
   * keyword's name, absent for a violation of a `false` subschema.
   */
  datatype Violation = Violation(
    path: seq<Segment>,
    message: string,
    validator: Option<string>,
    validatorValue: JsonValue)

  // ---------------------------------------------------------------------------
  // Lexicographic order, as Python compares strings and path deques

  /** `lt` is a strict total order: asymmetric, transitive and total. */
  ghost predicate StrictTotalOrder<T(!new)>(lt: (T, T) -> bool)
  {
    && (forall x, y :: lt(x, y) ==> !lt(y, x))
    && (forall x, y, z :: lt(x, y) && lt(y, z) ==> lt(x, z))
    && (forall x, y :: x == y || lt(x, y) || lt(y, x))
  }

  /**
   * Python's `<` on sequences: decided at the first differing position, and a
   * proper prefix is smaller than the longer sequence.
   */
  predicate LexLess<T(==)>(a: seq<T>, b: seq<T>, lt: (T, T) -> bool)
    decreases |a|
  {
    if |a| == 0 then |b| > 0
    else if |b| == 0 then false
    else if a[0] != b[0] then lt(a[0], b[0])
    else LexLess(a[1..], b[1..], lt)
  }

  lemma {:induction false} LexLessAsymmetric<T(!new)>(a: seq<T>, b: seq<T>, lt: (T, T) -> bool)
    requires StrictTotalOrder(lt)
    ensures LexLess(a, b, lt) ==> !LexLess(b, a, lt)
    decreases |a|
  {
    if |a| > 0 && |b| > 0 && a[0] == b[0] {
      LexLessAsymmetric(a[1..], b[1..], lt);
    }
  }

  lemma {:induction false} LexLessTransitive<T(!new)>(a: seq<T>, b: seq<T>, c: seq<T>, lt: (T, T) -> bool)
    requires StrictTotalOrder(lt)
    requires LexLess(a, b, lt) && LexLess(b, c, lt)
    ensures LexLess(a, c, lt)
    decreases |a|
  {
    if |a| > 0 && a[0] == b[0] && b[0] == c[0] {
      LexLessTransitive(a[1..], b[1..], c[1..], lt);
    }
  }

  lemma {:induction false} LexLessTotal<T(!new)>(a: seq<T>, b: seq<T>, lt: (T, T) -> bool)
    requires StrictTotalOrder(lt)
    ensures a == b || LexLess(a, b, lt) || LexLess(b, a, lt)
    decreases |a|
  {
    if |a| > 0 && |b| > 0 && a[0] == b[0] {
      LexLessTotal(a[1..], b[1..], lt);
      if a[1..] == b[1..] {
        assert a == [a[0]] + a[1..] && b == [b[0]] + b[1..];
      }
    }
  }

  /** Python's `<` on `str`: by code point, a proper prefix first. */
  predicate StrLess(a: string, b: string)
  {
    LexLess(a, b, (c: char, d: char) => c < d)
  }

  /**
   * The order on segments. Two paths compared by `sorted` index the same
   * document, so where they first differ both segments are keys or both are
   * indices; the order between an index and a key is a choice of this model.
   */
  predicate SegmentLess(x: Segment, y: Segment)
  {
    match (x, y)
    case (Index(i), Index(j)) => i < j
    case (Key(s), Key(t)) => StrLess(s, t)
    case (Index(_), Key(_)) => true
    case (Key(_), Index(_)) => false
  }

  lemma SegmentLessIsStrictTotalOrder()
    ensures StrictTotalOrder(SegmentLess)
  {
    var charLess := (c: char, d: char) => c < d;
    forall x: Segment, y: Segment | x.Key? && y.Key?
      ensures StrLess(x.name, y.name) ==> !StrLess(y.name, x.name)
      ensures x == y || StrLess(x.name, y.name) || StrLess(y.name, x.name)
    {
      LexLessAsymmetric(x.name, y.name, charLess);
      LexLessTotal(x.name, y.name, charLess);
    }
    forall x: Segment, y: Segment, z: Segment | x.Key? && y.Key? && z.Key? && StrLess(x.name, y.name) && StrLess(y.name, z.name)
      ensures StrLess(x.name, z.name)
    {
      LexLessTransitive(x.name, y.name, z.name, charLess);
    }
  }

  /** Python's `<` on two paths (`e.path < f.path`). */
  predicate PathLess(a: seq<Segment>, b: seq<Segment>)
  {
    LexLess(a, b, SegmentLess)
  }

  /** `a` may precede `b` in sorted output: `not (b < a)`. */
  predicate PathLe(a: seq<Segment>, b: seq<Segment>)
  {
    !PathLess(b, a)
  }

  // ---------------------------------------------------------------------------
  // Stable sorting by path

  /** Paths never decrease along `s`. */
  predicate Sorted(s: seq<Violation>)
  {
    forall i, j :: 0 <= i < j < |s| ==> PathLe(s[i].path, s[j].path)
  }

  /** The violations of `s` whose path is `p`, in the order in which `s` holds them. */
  function WithPath(s: seq<Violation>, p: seq<Segment>): seq<Violation>
  {
    if s == [] then [] else (if s[0].path == p then [s[0]] else []) + WithPath(s[1..], p)
  }

  /** `not (b < a)` is a total preorder on paths; with antisymmetry, a total order. */
  lemma PathLeFacts(a: seq<Segment>, b: seq<Segment>, c: seq<Segment>)
    ensures PathLe(a, b) || PathLe(b, a)
    ensures PathLe(a, b) && PathLe(b, a) ==> a == b
    ensures PathLe(a, b) && PathLe(b, c) ==> PathLe(a, c)
    ensures PathLess(a, b) ==> PathLe(a, b) && a != b
  {
    SegmentLessIsStrictTotalOrder();
    LexLessAsymmetric(a, b, SegmentLess);
    LexLessTotal(a, b, SegmentLess);
    LexLessTotal(a, c, SegmentLess);
    LexLessTotal(b, c, SegmentLess);
    if PathLess(c, a) && PathLess(a, b) {
      LexLessTransitive(c, a, b, SegmentLess);
    }
    if PathLess(b, c) && PathLess(c, a) {
      LexLessTransitive(b, c, a, SegmentLess);
    }
    if PathLess(a, b) {
      LexLessAsymmetric(a, a, SegmentLess);
    }
  }

  /**
   * Puts `x` into `s` ahead of the first violation whose path is not smaller,
   * so that `x` stays ahead of those with an equal path.
   */
  function Insert(x: Violation, s: seq<Violation>): (r: seq<Violation>)
    ensures |r| == |s| + 1
    ensures multiset(r) == multiset(s) + multiset{x}
  {
    if s == [] then [x]
    else if PathLe(x.path, s[0].path) then [x] + s
    else
      assert s == [s[0]] + s[1..];
      [s[0]] + Insert(x, s[1..])
  }

  lemma {:induction false} InsertSorted(x: Violation, s: seq<Violation>)
    requires Sorted(s)
    ensures Sorted(Insert(x, s))
  {
    if s == [] {
    } else if PathLe(x.path, s[0].path) {
      forall j | 0 <= j < |s| ensures PathLe(x.path, s[j].path) {
        PathLeFacts(x.path, s[0].path, s[j].path);
      }
    } else {
      InsertSorted(x, s[1..]);
      var rest := Insert(x, s[1..]);
      PathLeFacts(s[0].path, x.path, x.path);
      forall k | 0 <= k < |rest| ensures PathLe(s[0].path, rest[k].path) {
        assert rest[k] in multiset(rest);
        if rest[k] != x {
          assert rest[k] in multiset(s[1..]);
          var j :| 0 <= j < |s[1..]| && s[1..][j] == rest[k];
          assert s[j + 1] == rest[k];
        }
      }
    }
  }

  lemma WithPathCons(y: Violation, t: seq<Violation>, p: seq<Segment>)
    ensures WithPath([y] + t, p) == (if y.path == p then [y] else []) + WithPath(t, p)
  {
  }

  lemma {:induction false} InsertWithPath(x: Violation, s: seq<Violation>, p: seq<Segment>)
    ensures WithPath(Insert(x, s), p) == (if x.path == p then [x] else []) + WithPath(s, p)
  {
    if s == [] {
      WithPathCons(x, [], p);
      assert [x] + [] == [x];
    } else if PathLe(x.path, s[0].path) {
      WithPathCons(x, s, p);
    } else {
      var y, t := s[0], s[1..];
      assert s == [y] + t;
      InsertWithPath(x, t, p);
      WithPathCons(y, Insert(x, t), p);
      WithPathCons(y, t, p);
      PathLeFacts(y.path, x.path, x.path);
      assert !(x.path == p && y.path == p);
    }
  }

  /**
   * `sorted(errors, key=lambda e: e.path)`: the violations by non-decreasing
   * path, equal paths in their original order.
   */
  function SortByPath(s: seq<Violation>): (r: seq<Violation>)
    ensures |r| == |s|
    ensures Sorted(r)
    ensures multiset(r) == multiset(s)
    ensures forall p :: WithPath(r, p) == WithPath(s, p)
  {
    if s == [] then []
    else
      var rest := SortByPath(s[1..]);
      InsertSorted(s[0], rest);
      InsertFirstWithPath(s, rest);
      Insert(s[0], rest)
  }

  /**
   * Inserting the head of `s` into a rearrangement of its tail that keeps
   * each path's order gives a rearrangement of `s` that keeps it too.
   */
  lemma InsertFirstWithPath(s: seq<Violation>, rest: seq<Violation>)
    requires s != []
    requires multiset(rest) == multiset(s[1..])
    requires forall p :: WithPath(rest, p) == WithPath(s[1..], p)
    ensures |Insert(s[0], rest)| == |s|
    ensures multiset(Insert(s[0], rest)) == multiset(s)
    ensures forall p :: WithPath(Insert(s[0], rest), p) == WithPath(s, p)
  {
    assert s == [s[0]] + s[1..];
    forall p ensures WithPath(Insert(s[0], rest), p) == WithPath(s, p) {
      InsertWithPath(s[0], rest, p);
      WithPathCons(s[0], s[1..], p);
    }
  }


  lemma {:induction false} WithPathFinds(s: seq<Violation>, p: seq<Segment>)
    ensures WithPath(s, p) != [] <==> exists i :: 0 <= i < |s| && s[i].path == p
  {
    if s != [] {
      WithPathFinds(s[1..], p);
      if exists i :: 0 <= i < |s| && s[i].path == p {
        var i :| 0 <= i < |s| && s[i].path == p;
        if i > 0 {
          assert s[1..][i - 1].path == p;
        }
      }
      if exists i :: 0 <= i < |s[1..]| && s[1..][i].path == p {
        var i :| 0 <= i < |s[1..]| && s[1..][i].path == p;
        assert s[i + 1].path == p;
      }
    }
  }

  /**
   * A stable sort by path has exactly one possible outcome: two sorted
   * sequences that hold, for every path, the same violations in the same order
   * are equal. So whatever stable algorithm Python's `sorted` runs, its result
   * is SortByPath's.
   */
  lemma {:induction false} StableSortIsUnique(a: seq<Violation>, b: seq<Violation>)
    requires Sorted(a) && Sorted(b)
    requires forall p :: WithPath(a, p) == WithPath(b, p)
    ensures a == b
    decreases |a|
  {
    if a == [] || b == [] {
      if a != [] {
        WithPathFinds(b, a[0].path);
        WithPathFinds(a, a[0].path);
      }
      if b != [] {
        WithPathFinds(a, b[0].path);
        WithPathFinds(b, b[0].path);
      }
    } else {
      var p, q := a[0].path, b[0].path;
      WithPathFinds(a, q);
      WithPathFinds(b, q);
      var i :| 0 <= i < |a| && a[i].path == q;
      WithPathFinds(a, p);
      WithPathFinds(b, p);
      var j :| 0 <= j < |b| && b[j].path == p;
      PathLeFacts(p, q, p);
      PathLeFacts(p, p, p);
      assert PathLe(p, q) && PathLe(q, p);
      assert p == q;
      assert WithPath(a, p)[0] == a[0] && WithPath(b, p)[0] == b[0];
      assert a == [a[0]] + a[1..] && b == [b[0]] + b[1..];
      forall r ensures WithPath(a[1..], r) == WithPath(b[1..], r) {
        WithPathCons(a[0], a[1..], r);
        WithPathCons(b[0], b[1..], r);
        var k := if a[0].path == r then 1 else 0;
        assert WithPath(a[1..], r) == WithPath(a, r)[k..];
        assert WithPath(b[1..], r) == WithPath(b, r)[k..];
      }
      StableSortIsUnique(a[1..], b[1..]);
      assert a == [a[0]] + a[1..] && b == [b[0]] + b[1..];
    }
  }

  /** Any sorted rearrangement of `s` that keeps equal paths in order is SortByPath(s). */
  lemma SortByPathIsTheStableSort(s: seq<Violation>, r: seq<Violation>)
    requires Sorted(r)
    requires forall p :: WithPath(r, p) == WithPath(s, p)
    ensures r == SortByPath(s)
  {
    StableSortIsUnique(r, SortByPath(s));
  }
}
