/** Ordering the menu's window list by window class. The shell compares
    classes with `localeCompare`; the model compares them character by
    character (code-point lexicographic order), which is case-sensitive
    and total. The sort is `Array.prototype.sort`; the model sorts by
    insertion, and what is proved of it is that the result is ascending
    by class and a permutation of the input. */
module ClassOrder {
  import opened Types

  /** `a` comes no later than `b`. */
  predicate StrLeq(a: string, b: string)
    decreases |a|
  {
    |a| == 0 || (|b| > 0 && (a[0] < b[0] || (a[0] == b[0] && StrLeq(a[1..], b[1..]))))
  }

  lemma {:induction false} StrLeqTotal(a: string, b: string)
    ensures StrLeq(a, b) || StrLeq(b, a)
    decreases |a|
  {
    if |a| > 0 && |b| > 0 && a[0] == b[0] {
      StrLeqTotal(a[1..], b[1..]);
    }
  }

  lemma {:induction false} StrLeqTrans(a: string, b: string, c: string)
    requires StrLeq(a, b) && StrLeq(b, c)
    ensures StrLeq(a, c)
    decreases |a|
  {
    if |a| > 0 && a[0] == b[0] && b[0] == c[0] {
      StrLeqTrans(a[1..], b[1..], c[1..]);
    }
  }

  /** Ascending by class, compared over all pairs. */
  predicate SortedByClass(s: seq<OpenWindow>)
  {
    forall i, j :: 0 <= i < j < |s| ==> StrLeq(s[i].wmclass, s[j].wmclass)
  }

  /** Puts `e` in front of the first entry whose class it does not follow,
      so that it stays ahead of the entries with an equal class. */
  function Insert(e: OpenWindow, s: seq<OpenWindow>): (r: seq<OpenWindow>)
    ensures |r| == |s| + 1
  {
    if s == [] || StrLeq(e.wmclass, s[0].wmclass) then [e] + s
    else [s[0]] + Insert(e, s[1..])
  }

  /** Insertion sort by class. */
  function SortByClass(s: seq<OpenWindow>): (r: seq<OpenWindow>)
    ensures |r| == |s|
  {
    if s == [] then [] else Insert(s[0], SortByClass(s[1..]))
  }

  lemma {:induction false} InsertPermutes(e: OpenWindow, s: seq<OpenWindow>)
    ensures multiset(Insert(e, s)) == multiset([e] + s)
  {
    if s != [] && !StrLeq(e.wmclass, s[0].wmclass) {
      InsertPermutes(e, s[1..]);
      assert s == [s[0]] + s[1..];
    }
  }

  lemma {:induction false} InsertSorted(e: OpenWindow, s: seq<OpenWindow>)
    requires SortedByClass(s)
    ensures SortedByClass(Insert(e, s))
  {
    if s == [] {
    } else if StrLeq(e.wmclass, s[0].wmclass) {
      var r := [e] + s;
      forall i, j | 0 <= i < j < |r| ensures StrLeq(r[i].wmclass, r[j].wmclass) {
        if i == 0 && j > 1 {
          StrLeqTrans(e.wmclass, s[0].wmclass, s[j - 1].wmclass);
        }
      }
    } else {
      StrLeqTotal(e.wmclass, s[0].wmclass);
      var rest := Insert(e, s[1..]);
      InsertSorted(e, s[1..]);
      InsertPermutes(e, s[1..]);
      var r := [s[0]] + rest;
      forall j | 0 < j < |r| ensures StrLeq(s[0].wmclass, r[j].wmclass) {
        assert r[j] in multiset(rest);
        assert r[j] in multiset([e] + s[1..]);
        if r[j] != e {
          assert r[j] in s[1..];
          var m :| 0 <= m < |s[1..]| && s[1..][m] == r[j];
          assert s[m + 1] == r[j];
        }
      }
    }
  }

  /** The result is ascending by class and holds exactly the input's
      entries, as many times each as the input does. */
  lemma {:induction false} SortByClassCorrect(s: seq<OpenWindow>)
    ensures SortedByClass(SortByClass(s))
    ensures multiset(SortByClass(s)) == multiset(s)
  {
    if s != [] {
      SortByClassCorrect(s[1..]);
      InsertSorted(s[0], SortByClass(s[1..]));
      InsertPermutes(s[0], SortByClass(s[1..]));
      assert s == [s[0]] + s[1..];
    }
  }

}
