/** Sorting a set of identifiers. Ties may come out in any order, as with an unstable library sort. */
module Sorting {
  import opened Snapshot

  ghost predicate Preorder(le: (string, string) -> bool) {
    && (forall x, y :: le(x, y) || le(y, x))
    && (forall x, y, z :: le(x, y) && le(y, z) ==> le(x, z))
  }

  ghost predicate Sorted(le: (string, string) -> bool, s: seq<string>) {
    forall i, j :: 0 <= i < j < |s| ==> le(s[i], s[j])
  }

  method Least(ids: set<string>, le: (string, string) -> bool) returns (m: string)
    requires ids != {} && Preorder(le)
    ensures m in ids && forall x :: x in ids ==> le(m, x)
  {
    m :| m in ids;
    var left := ids - {m};
    assert le(m, m);
    while left != {}
      invariant left <= ids && m in ids
      invariant forall x :: x in ids && x !in left ==> le(m, x)
      decreases left
    {
      var x :| x in left;
      left := left - {x};
      if !le(m, x) {
        assert le(x, m) && le(x, x);
        m := x;
      }
    }
  }

  lemma Extend(s: seq<string>, ids: set<string>, m: string)
    requires Lists(s, ids) && m !in ids
    ensures Lists(s + [m], ids + {m})
  {
  }

  method Sort(ids: set<string>, le: (string, string) -> bool) returns (s: seq<string>)
    requires Preorder(le)
    ensures Lists(s, ids) && Sorted(le, s)
  {
    s := [];
    var left := ids;
    while left != {}
      invariant left <= ids && Lists(s, ids - left) && Sorted(le, s)
      invariant forall x, y :: x in s && y in left ==> le(x, y)
      decreases left
    {
      var m := Least(left, le);
      Extend(s, ids - left, m);
      s := s + [m];
      left := left - {m};
      assert ids - left == (ids - (left + {m})) + {m};
    }
  }

  /** The order of `sort.Strings`. */
  predicate LexLeq(x: string, y: string) {
    x == [] || (y != [] && (x[0] < y[0] || (x[0] == y[0] && LexLeq(x[1..], y[1..]))))
  }

  lemma {:induction false} LexTotal(x: string, y: string)
    ensures LexLeq(x, y) || LexLeq(y, x)
    decreases |x|
  {
    if x != [] && y != [] && x[0] == y[0] {
      LexTotal(x[1..], y[1..]);
    }
  }

  lemma {:induction false} LexTransitive(x: string, y: string, z: string)
    requires LexLeq(x, y) && LexLeq(y, z)
    ensures LexLeq(x, z)
    decreases |x|
  {
    if x != [] && x[0] == y[0] && y[0] == z[0] {
      LexTransitive(x[1..], y[1..], z[1..]);
    }
  }

  lemma LexPreorder()
    ensures Preorder((x, y) => LexLeq(x, y))
  {
    forall x, y ensures LexLeq(x, y) || LexLeq(y, x) {
      LexTotal(x, y);
    }
    forall x, y, z | LexLeq(x, y) && LexLeq(y, z) ensures LexLeq(x, z) {
      LexTransitive(x, y, z);
    }
  }
}
