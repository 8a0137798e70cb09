/** The tracker map of the extension is a JavaScript `Map`, which iterates
    in insertion order; the order decides which pending capture is written
    last when several trackers are torn down in one pass. This module holds
    the sequence operations that keep that order. */
module TrackerOrder {
  import opened Types

  predicate Distinct(ws: seq<Window>)
  {
    forall i, j :: 0 <= i < j < |ws| ==> ws[i] != ws[j]
  }

  /** `Map.delete`: the order with `w` taken out. */
  function Without(ws: seq<Window>, w: Window): (r: seq<Window>)
    ensures |r| <= |ws|
  {
    if ws == [] then [] else (if ws[0] == w then [] else [ws[0]]) + Without(ws[1..], w)
  }

  lemma {:induction false} WithoutAbsent(ws: seq<Window>, w: Window)
    requires w !in ws
    ensures Without(ws, w) == ws
  {
    if ws != [] {
      WithoutAbsent(ws[1..], w);
      assert ws == [ws[0]] + ws[1..];
    }
  }

  /** Deleting keeps every other entry, drops `w`, and keeps the entries distinct. */
  lemma {:induction false} WithoutMembers(ws: seq<Window>, w: Window)
    requires Distinct(ws)
    ensures forall x :: x in Without(ws, w) <==> x in ws && x != w
    ensures Distinct(Without(ws, w))
  {
    if ws != [] {
      var tail := ws[1..];
      assert Distinct(tail) by {
        forall i, j | 0 <= i < j < |tail| ensures tail[i] != tail[j] {
          assert tail[i] == ws[i + 1] && tail[j] == ws[j + 1];
        }
      }
      WithoutMembers(tail, w);
      assert forall x :: x in ws <==> x == ws[0] || x in tail by {
        assert ws == [ws[0]] + tail;
      }
      assert ws[0] !in tail by {
        forall k | 0 <= k < |tail| ensures tail[k] != ws[0] {
          assert tail[k] == ws[k + 1];
        }
      }
    }
  }

  /** Deleting an entry that occurs once, between `a` and `b`, leaves `a + b`. */
  lemma {:induction false} WithoutSplit(a: seq<Window>, w: Window, b: seq<Window>)
    requires w !in a && w !in b
    ensures Without(a + [w] + b, w) == a + b
    decreases |a|
  {
    var s := a + [w] + b;
    if a == [] {
      assert s == [w] + b && s[1..] == b;
      WithoutAbsent(b, w);
    } else {
      assert s[0] == a[0] && s[1..] == a[1..] + [w] + b;
      WithoutSplit(a[1..], w, b);
      assert a == [a[0]] + a[1..];
    }
  }
}
