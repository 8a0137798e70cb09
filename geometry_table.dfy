/** What a sequence of recorded window captures does to the table.
    Every write the tracking code makes (`doUpdateGeometry`) stores the
    window's current frame under the class captured when tracking began,
    with `locked: false`; a run of such writes is a `Replay`. */
module GeometryTable {
  import opened Types

  /** One call of `doUpdateGeometry`: the tracker's class and the frame
      the window had at that moment. */
  datatype Capture = Capture(wmclass: string, frame: Rect)

  /** The table after the captures `cs` were written, in order. */
  function Replay(t: Table, cs: seq<Capture>): (r: Table)
    ensures t.Keys <= r.Keys
    decreases |cs|
  {
    if cs == [] then t
    else
      var last := cs[|cs| - 1];
      Replay(t, cs[..|cs| - 1])[last.wmclass := FromFrame(last.frame, false)]
  }

  /** The frame of the last capture of class `k` in `cs`, if any. */
  function LastFor(cs: seq<Capture>, k: string): (r: Option<Rect>)
    decreases |cs|
  {
    if cs == [] then None
    else if cs[|cs| - 1].wmclass == k then Some(cs[|cs| - 1].frame)
    else LastFor(cs[..|cs| - 1], k)
  }

  /** `LastFor` finds a capture exactly when `cs` holds one of class `k`,
      and what it finds is one of them. */
  lemma {:induction false} LastForFound(cs: seq<Capture>, k: string)
    ensures LastFor(cs, k).Some? <==> exists c :: c in cs && c.wmclass == k
    ensures LastFor(cs, k).Some? ==> Capture(k, LastFor(cs, k).value) in cs
    decreases |cs|
  {
    if cs != [] {
      var init := cs[..|cs| - 1];
      assert cs == init + [cs[|cs| - 1]];
      LastForFound(init, k);
    }
  }

  /** Writing captures one after another: the last capture of a class
      wins and is unlocked; a class no capture touches keeps its record
      (or stays absent); nothing is ever removed. */
  lemma {:induction false} ReplayAt(t: Table, cs: seq<Capture>, k: string)
    ensures k in Replay(t, cs) <==> k in t || LastFor(cs, k).Some?
    ensures LastFor(cs, k).Some? ==> Replay(t, cs)[k] == FromFrame(LastFor(cs, k).value, false)
    ensures LastFor(cs, k).None? && k in t ==> Replay(t, cs)[k] == t[k]
    decreases |cs|
  {
    if cs != [] {
      ReplayAt(t, cs[..|cs| - 1], k);
    }
  }

  /** Writing `a` and then `b` is writing `a + b`. */
  lemma {:induction false} ReplayAppend(t: Table, a: seq<Capture>, b: seq<Capture>)
    ensures Replay(Replay(t, a), b) == Replay(t, a + b)
    decreases |b|
  {
    if b == [] {
      assert a + b == a;
    } else {
      var init := b[..|b| - 1];
      ReplayAppend(t, a, init);
      assert (a + b)[..|a + b| - 1] == a + init;
    }
  }

  /** The keys after a replay are the old keys and the captured classes. */
  lemma ReplayKeys(t: Table, cs: seq<Capture>)
    ensures Replay(t, cs).Keys == t.Keys + set c | c in cs :: c.wmclass
  {
    forall k
      ensures k in Replay(t, cs) <==> k in t || k in (set c | c in cs :: c.wmclass)
    {
      ReplayAt(t, cs, k);
      LastForFound(cs, k);
    }
  }
}
