/** The window-geometry bookkeeping of `RestoreGeometryExtension`
    (src/extension.ts). Every signal handler and timer callback of the
    source is a method here, called when that event happens:
    a window's position or size changed, its update timer fired, it was
    unmanaged, its actor drew its first frame, the save timer fired, a
    (deferred) window-created notification arrived. Timers are slots that
    hold the id of the one live timer, if any; cancelling a timer empties
    or overwrites its slot, and only the timer whose id is in a slot can
    fire. */
module RestoreGeometry {
  import opened Types
  import opened GeometryTable
  import opened TrackerOrder
  import opened ClassOrder

  /** A GLib source id. */
  type TimerId = nat

  /** What `_startTracking` keeps per window: the class captured when
      tracking began (the one `doUpdateGeometry` writes under) and the
      window's `pendingUpdate` timer. */
  datatype Tracker = Tracker(wmclass: string, pendingUpdate: Option<TimerId>)

  /** Which trackers a teardown pass disconnects: all of them (`destroy`)
      or those whose window currently has a given class (`_stopTracking`). */
  datatype Scope = All | OfClass(wmclass: string)

  /** A window as a teardown pass sees it: its current class and frame.
      The pass changes no window, so a snapshot taken before it is exact. */
  datatype View = View(window: Window, wmclass: Option<string>, frame: Rect)

  ghost function Views(ws: seq<Window>): (vs: seq<View>)
    reads ws
    ensures |vs| == |ws|
    ensures forall k :: 0 <= k < |ws| ==> vs[k] == View(ws[k], ws[k].wmclass, ws[k].frame)
  {
    seq(|ws|, k requires 0 <= k < |ws| reads ws => View(ws[k], ws[k].wmclass, ws[k].frame))
  }

  predicate Matches(c: Option<string>, s: Scope)
  {
    s.All? || c == Some(s.wmclass)
  }

  /** What disconnecting a tracker writes: its pending update, if any,
      taken at the window's current frame. */
  function Pending(t: Tracker, frame: Rect): (cs: seq<Capture>)
  {
    if t.pendingUpdate.Some? then [Capture(t.wmclass, frame)] else []
  }

  /** The captures written when the trackers of `vs` (in this order) that
      are in scope are disconnected. */
  function Flushed(vs: seq<View>, trs: map<Window, Tracker>, s: Scope): (r: seq<Capture>)
    ensures |r| <= |vs|
    decreases |vs|
  {
    if vs == [] then []
    else
      var v := vs[|vs| - 1];
      Flushed(vs[..|vs| - 1], trs, s) +
      (if v.window in trs && Matches(v.wmclass, s) then Pending(trs[v.window], v.frame) else [])
  }

  /** The window of `v` is tracked, in scope, and has an update pending:
      disconnecting it writes a capture. */
  predicate Writes(v: View, trs: map<Window, Tracker>, s: Scope)
  {
    v.window in trs && Matches(v.wmclass, s) && trs[v.window].pendingUpdate.Some?
  }

  /** A tracker of `vs` that is in scope and has an update pending
      contributes its capture to what the pass writes. */
  lemma {:induction false} FlushedHas(vs: seq<View>, trs: map<Window, Tracker>, s: Scope, k: nat)
    requires k < |vs| && Writes(vs[k], trs, s)
    ensures Capture(trs[vs[k].window].wmclass, vs[k].frame) in Flushed(vs, trs, s)
    decreases |vs|
  {
    var init := vs[..|vs| - 1];
    if k < |vs| - 1 {
      assert init[k] == vs[k];
      FlushedHas(init, trs, s, k);
    }
  }

  /** Conversely, every capture a pass writes comes from such a tracker. */
  lemma {:induction false} FlushedFrom(vs: seq<View>, trs: map<Window, Tracker>, s: Scope, x: Capture)
    requires x in Flushed(vs, trs, s)
    ensures exists k :: 0 <= k < |vs| && Writes(vs[k], trs, s) && x == Capture(trs[vs[k].window].wmclass, vs[k].frame)
    decreases |vs|
  {
    var init := vs[..|vs| - 1];
    if x in Flushed(init, trs, s) {
      FlushedFrom(init, trs, s, x);
      var k :| 0 <= k < |init| && Writes(init[k], trs, s) && x == Capture(trs[init[k].window].wmclass, init[k].frame);
      assert vs[k] == init[k];
    } else {
      assert Writes(vs[|vs| - 1], trs, s);
    }
  }

  /** A pass in which no tracker has anything to write writes nothing. */
  lemma {:induction false} FlushedNone(vs: seq<View>, trs: map<Window, Tracker>, s: Scope)
    requires forall k :: 0 <= k < |vs| ==> !Writes(vs[k], trs, s)
    ensures Flushed(vs, trs, s) == []
  {
    var r := Flushed(vs, trs, s);
    if r != [] {
      FlushedFrom(vs, trs, s, r[0]);
    }
  }

  /** A pass in which no window is in scope keeps every window, in order. */
  lemma {:induction false} KeptNone(vs: seq<View>, ws: seq<Window>, s: Scope)
    requires |vs| == |ws| && forall k :: 0 <= k < |vs| ==> vs[k].window == ws[k] && !Matches(vs[k].wmclass, s)
    ensures Kept(vs, s) == ws
    decreases |vs|
  {
    if vs != [] {
      var n := |vs| - 1;
      KeptNone(vs[..n], ws[..n], s);
      assert ws == ws[..n] + [ws[n]];
    }
  }

  /** The windows of `vs` that a teardown pass over scope `s` leaves tracked. */
  function Kept(vs: seq<View>, s: Scope): (r: seq<Window>)
    ensures s.All? ==> r == []
    decreases |vs|
  {
    if vs == [] then []
    else
      var v := vs[|vs| - 1];
      Kept(vs[..|vs| - 1], s) + (if Matches(v.wmclass, s) then [] else [v.window])
  }

  lemma {:induction false} KeptMembers(vs: seq<View>, s: Scope)
    ensures forall x :: x in Kept(vs, s) ==> exists k :: 0 <= k < |vs| && vs[k].window == x && !Matches(vs[k].wmclass, s)
    ensures forall k :: 0 <= k < |vs| && !Matches(vs[k].wmclass, s) ==> vs[k].window in Kept(vs, s)
    decreases |vs|
  {
    if vs != [] {
      var init := vs[..|vs| - 1];
      KeptMembers(init, s);
      forall x | x in Kept(vs, s)
        ensures exists k :: 0 <= k < |vs| && vs[k].window == x && !Matches(vs[k].wmclass, s)
      {
        if x in Kept(init, s) {
          var k :| 0 <= k < |init| && init[k].window == x && !Matches(init[k].wmclass, s);
          assert vs[k] == init[k];
        }
      }
      forall k | 0 <= k < |vs| && !Matches(vs[k].wmclass, s)
        ensures vs[k].window in Kept(vs, s)
      {
        if k < |init| {
          assert vs[k] == init[k];
        }
      }
    }
  }

  /** A window is kept exactly when it is one of `ws` and out of scope. */
  lemma KeptTracked(ws: seq<Window>, s: Scope)
    ensures forall w :: w in Kept(Views(ws), s) <==> w in ws && !Matches(w.wmclass, s)
  {
    var vs := Views(ws);
    forall w ensures w in Kept(vs, s) <==> w in ws && !Matches(w.wmclass, s) {
      if w in ws && !Matches(w.wmclass, s) {
        var k :| 0 <= k < |ws| && ws[k] == w;
        KeptCovers(vs, s, k);
      }
      if w in Kept(vs, s) {
        KeptFrom(vs, s, w);
        var k :| 0 <= k < |vs| && vs[k].window == w && !Matches(vs[k].wmclass, s);
        assert ws[k] == w;
      }
    }
  }

  lemma KeptFrom(vs: seq<View>, s: Scope, x: Window)
    requires x in Kept(vs, s)
    ensures exists k :: 0 <= k < |vs| && vs[k].window == x && !Matches(vs[k].wmclass, s)
  {
    KeptMembers(vs, s);
  }

  lemma KeptCovers(vs: seq<View>, s: Scope, k: nat)
    requires k < |vs| && !Matches(vs[k].wmclass, s)
    ensures vs[k].window in Kept(vs, s)
  {
    KeptMembers(vs, s);
  }

  /** What one more window of a teardown pass adds to the captures. */
  lemma PassFlushed(vs: seq<View>, i: nat, trs: map<Window, Tracker>, s: Scope)
    requires i < |vs|
    ensures Flushed(vs[..i + 1], trs, s) ==
      Flushed(vs[..i], trs, s) +
      (if vs[i].window in trs && Matches(vs[i].wmclass, s) then Pending(trs[vs[i].window], vs[i].frame) else [])
  {
    assert vs[..i + 1][..i] == vs[..i];
  }

  /** The pass decides one window at a time. */
  lemma KeptStep(vs: seq<View>, i: nat, s: Scope)
    requires i < |vs|
    ensures Kept(vs[..i + 1], s) == Kept(vs[..i], s) + (if Matches(vs[i].wmclass, s) then [] else [vs[i].window])
  {
    assert vs[..i + 1][..i] == vs[..i];
  }

  /** Over distinct windows, a window is not kept before its turn. */
  lemma NotKeptYet(ws: seq<Window>, vs: seq<View>, i: nat, s: Scope)
    requires i < |ws| == |vs| && Distinct(ws)
    requires forall k :: 0 <= k < |vs| ==> vs[k].window == ws[k]
    ensures ws[i] !in Kept(vs[..i], s)
  {
    KeptMembers(vs[..i], s);
    forall k | 0 <= k < i ensures vs[..i][k].window != ws[i] {
      assert vs[..i][k].window == ws[k];
    }
  }

  /** One more window of a teardown pass over distinct windows: it is
      still in the order; disconnecting it (when in scope) takes it out
      and leaves the rest in place, and skipping it changes nothing. */
  lemma PassOrder(ws: seq<Window>, vs: seq<View>, i: nat, s: Scope)
    requires i < |ws| == |vs| && Distinct(ws)
    requires forall k :: 0 <= k < |vs| ==> vs[k].window == ws[k]
    ensures ws[i] in Kept(vs[..i], s) + ws[i..]
    ensures Matches(vs[i].wmclass, s) ==>
      Without(Kept(vs[..i], s) + ws[i..], ws[i]) == Kept(vs[..i + 1], s) + ws[i + 1..]
    ensures !Matches(vs[i].wmclass, s) ==> Kept(vs[..i], s) + ws[i..] == Kept(vs[..i + 1], s) + ws[i + 1..]
  {
    assert ws[i] == ws[i..][0];
    assert vs[..i + 1][..i] == vs[..i];
    if Matches(vs[i].wmclass, s) {
      NotKeptYet(ws, vs, i, s);
      PassDrop(ws, vs[..i + 1], i, s);
    } else {
      PassSkip(ws, vs[..i + 1], i, s);
    }
  }

  /** Skipping a window out of scope moves it from the rest of the pass
      to the kept windows. */
  lemma PassSkip(ws: seq<Window>, us: seq<View>, i: nat, s: Scope)
    requires i < |ws| && |us| == i + 1 && us[i].window == ws[i] && !Matches(us[i].wmclass, s)
    ensures Kept(us[..i], s) + ws[i..] == Kept(us, s) + ws[i + 1..]
  {
    assert Kept(us, s) == Kept(us[..i], s) + [ws[i]];
    assert ws[i..] == [ws[i]] + ws[i + 1..];
  }

  /** Disconnecting a window in scope, which is neither kept yet nor later
      in the pass, takes it out of the order and leaves the rest in place. */
  lemma PassDrop(ws: seq<Window>, us: seq<View>, i: nat, s: Scope)
    requires i < |ws| && Distinct(ws) && |us| == i + 1 && Matches(us[i].wmclass, s)
    requires ws[i] !in Kept(us[..i], s)
    ensures Without(Kept(us[..i], s) + ws[i..], ws[i]) == Kept(us, s) + ws[i + 1..]
  {
    var w, after, kept := ws[i], ws[i + 1..], Kept(us[..i], s);
    assert ws[i..] == [w] + after;
    assert kept + ws[i..] == kept + [w] + after;
    assert w !in after by {
      forall k | 0 <= k < |after| ensures after[k] != w {
        assert after[k] == ws[i + 1 + k];
      }
    }
    WithoutSplit(kept, w, after);
    assert Kept(us, s) == kept;
  }

  /** A window the constructor's tracking pass picks up: its class is
      saved and not locked. */
  predicate Picked(v: View, t: Table)
  {
    HasClass(v.wmclass) && v.wmclass.value in t && t[v.wmclass.value].locked != Some(true)
  }

  predicate TrackedAtStart(w: Window, t: Table)
    reads w
  {
    Picked(View(w, w.wmclass, w.frame), t)
  }

  /** An entry of the shell's actor list as the constructor's pass sees
      it; `None` for an actor without a window. */
  ghost function ViewOf(a: Window?): Option<View>
    reads a
  {
    if a == null then None else Some(View(a, a.wmclass, a.frame))
  }

  ghost function Actors(actors: seq<Window?>): (seen: seq<Option<View>>)
    reads actors
    ensures |seen| == |actors|
    ensures forall k :: 0 <= k < |actors| ==> seen[k] == ViewOf(actors[k])
  {
    seq(|actors|, k requires 0 <= k < |actors| reads actors => ViewOf(actors[k]))
  }

  /** One step of the constructor's pass: a picked window is tracked
      under its class unless it is tracked already. */
  function Pick(m: map<Window, Tracker>, a: Option<View>, t: Table): (r: map<Window, Tracker>)
  {
    if a.Some? && Picked(a.value, t) && a.value.window !in m
    then m[a.value.window := Tracker(a.value.wmclass.value, None)] else m
  }

  /** The same step on the insertion order: a newly tracked window goes last. */
  function PickOrder(o: seq<Window>, a: Option<View>, t: Table): (r: seq<Window>)
  {
    if a.Some? && Picked(a.value, t) && a.value.window !in o then o + [a.value.window] else o
  }

  /** The trackers the constructor's pass over `seen` sets up; a window
      met twice is tracked once, under the class it had the first time. */
  function StartTrackers(seen: seq<Option<View>>, t: Table): (r: map<Window, Tracker>)
    decreases |seen|
  {
    if seen == [] then map[]
    else Pick(StartTrackers(seen[..|seen| - 1], t), seen[|seen| - 1], t)
  }

  /** The insertion order the pass leaves: the windows it tracks, in the
      order of the actors, each at its first occurrence. */
  function StartOrder(seen: seq<Option<View>>, t: Table): (r: seq<Window>)
    decreases |seen|
  {
    if seen == [] then []
    else PickOrder(StartOrder(seen[..|seen| - 1], t), seen[|seen| - 1], t)
  }

  lemma StartStep(seen: seq<Option<View>>, i: nat, t: Table)
    requires i < |seen|
    ensures StartTrackers(seen[..i + 1], t) == Pick(StartTrackers(seen[..i], t), seen[i], t)
    ensures StartOrder(seen[..i + 1], t) == PickOrder(StartOrder(seen[..i], t), seen[i], t)
  {
    assert seen[..i + 1][..i] == seen[..i];
  }

  /** The pass tracks exactly the windows of `actors` whose class is saved
      and not locked, each under its class and with no update pending. */
  lemma {:induction false} StartTrackersMembers(actors: seq<Window?>, t: Table)
    ensures forall w: Window :: w in StartTrackers(Actors(actors), t) <==> w in actors && TrackedAtStart(w, t)
    ensures forall w :: w in StartTrackers(Actors(actors), t) ==>
      HasClass(w.wmclass) && StartTrackers(Actors(actors), t)[w] == Tracker(w.wmclass.value, None)
    decreases |actors|
  {
    if actors != [] {
      var init := actors[..|actors| - 1];
      StartTrackersMembers(init, t);
      assert Actors(actors)[..|actors| - 1] == Actors(init);
      assert actors == init + [actors[|actors| - 1]];
    }
  }

  class RestoreGeometryExtension {
    /** `_savedWindows`. */
    var savedWindows: Table
    /** The value of the `tracked-windows` settings key, as last written. */
    var persisted: Table
    /** `_pendingSave`. */
    var pendingSave: Option<TimerId>
    /** `_windowTrackers`, with the per-window timer slot of each closure. */
    var trackers: map<Window, Tracker>
    /** The insertion order of `_windowTrackers`. */
    var order: seq<Window>
    /** Whether the `window-created` handler is connected. Nothing in the
        code reads it: an idle callback queued before `destroy` still
        reaches `OnWindowCreated` afterwards, which is why that method does
        not require it. */
    var watchingCreation: bool
    /** Windows whose `first-frame` handler is connected, with the class it captured. */
    var awaitingFirstFrame: map<Window, string>
    /** The id GLib hands out to the next timer. */
    var nextTimer: TimerId

    /** The bookkeeping is consistent: the order lists exactly the
        tracked windows, once each, and every live timer id was handed out. */
    ghost predicate Consistent()
      reads this
    {
      (forall w :: w in trackers ==> w in order) &&
      (forall w :: w in order ==> w in trackers) &&
      Distinct(order) &&
      (pendingSave.Some? ==> pendingSave.value < nextTimer) &&
      (forall w :: w in trackers && trackers[w].pendingUpdate.Some? ==> trackers[w].pendingUpdate.value < nextTimer)
    }

    /** ... and, whenever no save is pending, the settings key holds the table. */
    ghost predicate Valid()
      reads this
    {
      Consistent() && (pendingSave.None? ==> persisted == savedWindows)
    }

    /** Every tracked window still reports the class its tracker captured.
        The window manager can break this at any time: a window may change
        its class after tracking began. */
    ghost predicate ClassesCurrent()
      reads this, trackers.Keys
    {
      forall v :: v in trackers ==> v.wmclass == Some(trackers[v].wmclass)
    }

    /** Loads the table from the settings and starts tracking every
        existing window whose class is saved and not locked. */
    constructor (settings: Table, actors: seq<Window?>)
      ensures Valid()
      ensures savedWindows == settings && persisted == settings && pendingSave == None
      ensures watchingCreation && awaitingFirstFrame == map[]
      ensures forall w: Window :: w in trackers <==> w in actors && TrackedAtStart(w, settings)
      ensures forall w :: w in trackers ==> HasClass(w.wmclass) && trackers[w] == Tracker(w.wmclass.value, None)
      ensures order == StartOrder(Actors(actors), settings)
    {
      savedWindows := settings;
      persisted := settings;
      pendingSave := None;
      trackers := map[];
      order := [];
      watchingCreation := true;
      awaitingFirstFrame := map[];
      nextTimer := 1;
      new;
      ghost var seen := Actors(actors);
      TrackExisting(actors, seen);
      assert Actors(actors) == seen;
      StartTrackersMembers(actors, settings);
    }

    /** The constructor's loop over the windows that already exist;
        `seen` is the snapshot of them. */
    method TrackExisting(actors: seq<Window?>, ghost seen: seq<Option<View>>)
      requires Valid() && trackers == map[] && order == []
      requires seen == Actors(actors)
      modifies this`trackers, this`order
      ensures Valid()
      ensures trackers == StartTrackers(seen, savedWindows)
      ensures order == StartOrder(seen, savedWindows)
    {
      var i := 0;
      while i < |actors|
        invariant 0 <= i <= |actors|
        invariant Valid()
        invariant trackers == StartTrackers(seen[..i], savedWindows)
        invariant order == StartOrder(seen[..i], savedWindows)
      {
        StartStep(seen, i, savedWindows);
        TrackAtStart(actors[i], seen[i]);
        i := i + 1;
      }
      assert seen[..i] == seen;
    }

    /** The body of the constructor's loop: `v` is how the pass sees `w`. */
    method TrackAtStart(w: Window?, ghost v: Option<View>)
      requires Valid() && v == ViewOf(w)
      modifies this`trackers, this`order
      ensures Valid()
      ensures trackers == Pick(old(trackers), v, savedWindows)
      ensures order == PickOrder(old(order), v, savedWindows)
    {
      if w != null {
        var c := w.wmclass;
        if HasClass(c) && IsSaved(c.value) && !IsLocked(c.value) {
          StartTracking(w, c.value);
        }
      }
    }

    /** `isSaved`: the class has a record. */
    function IsSaved(wmclass: string): (r: bool)
      reads this
      ensures r <==> wmclass in savedWindows
    {
      wmclass in savedWindows
    }

    /** `isLocked`: the class has a record whose `locked` field is present
        and true; unknown classes and records without the field are not. */
    function IsLocked(wmclass: string): (r: bool)
      reads this
      ensures r ==> IsSaved(wmclass)
      ensures r <==> wmclass in savedWindows && savedWindows[wmclass].locked == Some(true)
    {
      if wmclass !in savedWindows then false
      else match savedWindows[wmclass].locked
        case None => false
        case Some(b) => b
    }

    /** `_flushSettings`: writes the whole table to the settings key. */
    method FlushSettings()
      requires Consistent()
      modifies this`persisted
      ensures Valid()
      ensures persisted == savedWindows
    {
      persisted := savedWindows;
    }

    /** `_saveSettings`: cancels the pending save, if any, and schedules a
        new one; nothing is written yet. */
    method SaveSettings()
      requires Consistent()
      modifies this`pendingSave, this`nextTimer
      ensures Valid()
      ensures pendingSave == Some(old(nextTimer)) && nextTimer == old(nextTimer) + 1
      ensures old(pendingSave).Some? ==> pendingSave != old(pendingSave)
    {
      // Overwriting the slot cancels the timer it held.
      pendingSave := Some(nextTimer);
      nextTimer := nextTimer + 1;
    }

    /** The save timer fires: the slot is cleared and the table written. */
    method OnSaveTimer(id: TimerId)
      requires Valid() && pendingSave == Some(id)
      modifies this`pendingSave, this`persisted
      ensures Valid()
      ensures pendingSave == None && persisted == savedWindows
    {
      pendingSave := None;
      FlushSettings();
    }

    /** `doUpdateGeometry`: records the window's current frame, unlocked,
        under the class captured by its tracker, and schedules a save. */
    method DoUpdateGeometry(w: Window, wmclass: string)
      requires Consistent()
      modifies this`savedWindows, this`pendingSave, this`nextTimer
      ensures Valid()
      ensures savedWindows == old(savedWindows)[wmclass := FromFrame(w.frame, false)]
      ensures pendingSave == Some(old(nextTimer)) && nextTimer == old(nextTimer) + 1
    {
      savedWindows := savedWindows[wmclass := FromFrame(w.frame, false)];
      SaveSettings();
    }

    /** `_startTracking`: adds one tracker, with no pending update, unless
        the window already has one. */
    method StartTracking(w: Window, wmclass: string)
      requires Valid()
      modifies this`trackers, this`order
      ensures Valid()
      ensures old(w in trackers) ==> trackers == old(trackers) && order == old(order)
      ensures old(w !in trackers) ==> trackers == old(trackers)[w := Tracker(wmclass, None)] && order == old(order) + [w]
    {
      if w in trackers {
        return;
      }
      trackers := trackers[w := Tracker(wmclass, None)];
      order := order + [w];
    }

    /** `updateGeometry`, connected to `position-changed` and `size-changed`:
        cancels the window's pending update and schedules a fresh one.
        The table is not touched. */
    method OnGeometryChanged(w: Window)
      requires Valid() && w in trackers
      modifies this`trackers, this`nextTimer
      ensures Valid()
      ensures trackers == old(trackers)[w := old(trackers[w]).(pendingUpdate := Some(old(nextTimer)))]
      ensures trackers[w].pendingUpdate != old(trackers[w].pendingUpdate)
      ensures nextTimer == old(nextTimer) + 1
    {
      var t := trackers[w];
      // Overwriting the slot cancels the timer it held.
      trackers := trackers[w := t.(pendingUpdate := Some(nextTimer))];
      nextTimer := nextTimer + 1;
    }

    /** A window's update timer fires: the slot is cleared, the window's
        current frame recorded and a save scheduled. */
    method OnUpdateTimer(w: Window, id: TimerId)
      requires Valid() && w in trackers && trackers[w].pendingUpdate == Some(id)
      modifies this`trackers, this`savedWindows, this`pendingSave, this`nextTimer
      ensures Valid()
      ensures trackers == old(trackers)[w := old(trackers[w]).(pendingUpdate := None)]
      ensures savedWindows == old(savedWindows)[old(trackers[w]).wmclass := FromFrame(w.frame, false)]
      ensures pendingSave == Some(old(nextTimer))
    {
      var t := trackers[w];
      trackers := trackers[w := t.(pendingUpdate := None)];
      DoUpdateGeometry(w, t.wmclass);
    }

    /** The `disconnect` closure: releases the window's signals, records
        its pending update (if any) and removes its tracker. */
    method Disconnect(w: Window)
      requires Valid() && w in trackers
      modifies this`trackers, this`order, this`savedWindows, this`pendingSave, this`nextTimer
      ensures Valid()
      ensures trackers == old(trackers) - {w}
      ensures order == Without(old(order), w)
      ensures savedWindows == Replay(old(savedWindows), Pending(old(trackers[w]), w.frame))
      ensures old(trackers[w].pendingUpdate).None? ==> pendingSave == old(pendingSave) && nextTimer == old(nextTimer)
      ensures old(trackers[w].pendingUpdate).Some? ==> pendingSave == Some(old(nextTimer))
    {
      var t := trackers[w];
      if t.pendingUpdate.Some? {
        // The timer is cancelled; its slot goes with the tracker below.
        DoUpdateGeometry(w, t.wmclass);
        assert [Capture(t.wmclass, w.frame)][..0] == [];
      }
      WithoutMembers(order, w);
      trackers := trackers - {w};
      order := Without(order, w);
    }

    /** The `unmanaged` handler: the pending update is cancelled without
        being recorded, then the tracker is disconnected. The table and
        the pending save are left as they were. */
    method OnUnmanaged(w: Window)
      requires Valid() && w in trackers
      modifies this`trackers, this`order, this`savedWindows, this`pendingSave, this`nextTimer
      ensures Valid()
      ensures trackers == old(trackers) - {w}
      ensures order == Without(old(order), w)
      ensures savedWindows == old(savedWindows) && pendingSave == old(pendingSave)
    {
      var t := trackers[w];
      if t.pendingUpdate.Some? {
        trackers := trackers[w := t.(pendingUpdate := None)];
      }
      Disconnect(w);
    }

    /** The state of a teardown pass over `ws` (whose views are `vs`)
        once its first `i` windows are done. */
    ghost predicate Passed(ws: seq<Window>, vs: seq<View>, i: nat, s: Scope,
                           trs0: map<Window, Tracker>, saved0: Table, pending0: Option<TimerId>)
      reads this
    {
      i <= |ws| == |vs| && Distinct(ws) &&
      (forall k :: 0 <= k < |vs| ==> vs[k].window == ws[k]) &&
      order == Kept(vs[..i], s) + ws[i..] &&
      (forall w :: w in trackers ==> w in trs0 && trackers[w] == trs0[w]) &&
      savedWindows == Replay(saved0, Flushed(vs[..i], trs0, s)) &&
      (pending0.Some? ==> pendingSave.Some?)
    }

    /** One window of a teardown pass: disconnected when in scope. */
    method PassOne(w: Window, ghost ws: seq<Window>, ghost vs: seq<View>, i: nat, s: Scope,
                   ghost trs0: map<Window, Tracker>, ghost saved0: Table, ghost pending0: Option<TimerId>)
      requires Valid() && Passed(ws, vs, i, s, trs0, saved0, pending0)
      requires i < |ws| && w == ws[i] && vs[i] == View(w, w.wmclass, w.frame)
      modifies this`trackers, this`order, this`savedWindows, this`pendingSave, this`nextTimer
      ensures Valid() && Passed(ws, vs, i + 1, s, trs0, saved0, pending0)
    {
      ghost var nextOrder := Kept(vs[..i + 1], s) + ws[i + 1..];
      ghost var nextFlushed := Flushed(vs[..i + 1], trs0, s);
      if Matches(w.wmclass, s) {
        ghost var done := Flushed(vs[..i], trs0, s);
        assert w in order && Without(order, w) == nextOrder by {
          PassOrder(ws, vs, i, s);
        }
        ghost var t := trackers[w];
        assert nextFlushed == done + Pending(t, vs[i].frame) by {
          PassFlushed(vs, i, trs0, s);
        }
        Disconnect(w);
        assert savedWindows == Replay(saved0, nextFlushed) by {
          ReplayAppend(saved0, done, Pending(t, vs[i].frame));
        }
      } else {
        assert order == nextOrder && nextFlushed == Flushed(vs[..i], trs0, s) by {
          PassOrder(ws, vs, i, s);
          PassFlushed(vs, i, trs0, s);
        }
      }
    }

    /** One pass over a snapshot of the trackers, in insertion order,
        disconnecting those in scope. */
    method DisconnectInScope(s: Scope, ghost vs: seq<View>)
      requires Valid() && vs == Views(order)
      modifies this`trackers, this`order, this`savedWindows, this`pendingSave, this`nextTimer
      ensures Valid()
      ensures order == Kept(vs, s)
      ensures forall w :: w in trackers ==> w in old(trackers) && trackers[w] == old(trackers)[w]
      ensures savedWindows == Replay(old(savedWindows), Flushed(vs, old(trackers), s))
      ensures old(pendingSave).Some? ==> pendingSave.Some?
    {
      var ws := order;
      ghost var trs0, saved0, pending0 := trackers, savedWindows, pendingSave;
      var i := 0;
      assert Passed(ws, vs, i, s, trs0, saved0, pending0) by {
        assert vs[..0] == [] && ws[0..] == ws;
      }
      while i < |ws|
        invariant Valid() && Passed(ws, vs, i, s, trs0, saved0, pending0)
        invariant vs == Views(ws)
      {
        var w := ws[i];
        assert vs[i] == View(w, w.wmclass, w.frame);
        PassOne(w, ws, vs, i, s, trs0, saved0, pending0);
        i := i + 1;
      }
      assert vs[..i] == vs && ws[i..] == [];
    }

    /** `_stopTracking`: disconnects every tracker whose window currently
        has class `wmclass`, in insertion order; the others are untouched. */
    method StopTracking(wmclass: string)
      requires Valid()
      modifies this`trackers, this`order, this`savedWindows, this`pendingSave, this`nextTimer
      ensures Valid()
      ensures order == Kept(old(Views(order)), OfClass(wmclass))
      ensures forall w :: w in trackers <==> w in old(trackers) && w.wmclass != Some(wmclass)
      ensures forall w :: w in trackers ==> trackers[w] == old(trackers)[w]
      ensures savedWindows == Replay(old(savedWindows), Flushed(old(Views(order)), old(trackers), OfClass(wmclass)))
      ensures old(pendingSave).Some? ==> pendingSave.Some?
      ensures old(NoneTracked(wmclass)) ==>
        trackers == old(trackers) && order == old(order) && savedWindows == old(savedWindows)
    {
      ghost var vs := Views(order);
      if NoneTracked(wmclass) {
        KeptNone(vs, order, OfClass(wmclass));
        FlushedNone(vs, trackers, OfClass(wmclass));
      }
      KeptTracked(order, OfClass(wmclass));
      DisconnectInScope(OfClass(wmclass), vs);
    }

    /** No tracked window currently has class `wmclass`; `_stopTracking`
        leaves exactly this behind, so a second call finds nothing to do. */
    ghost predicate NoneTracked(wmclass: string)
      reads this, trackers.Keys
    {
      forall v :: v in trackers ==> v.wmclass != Some(wmclass)
    }

    /** `updateWindow`, the menu's entry point. Without a class nothing
        happens. `saved == false` forgets the class and stops tracking it;
        `saved == true` records the current frame with the given lock and
        then tracks the window if unlocked, or stops tracking the class if
        locked. Stopping flushes pending updates, which can put a forgotten
        class back, or overwrite a locked record, with `locked: false`. */
    method UpdateWindow(w: Window, saved: bool, locked: bool)
      requires Valid()
      modifies this`trackers, this`order, this`savedWindows, this`pendingSave, this`nextTimer
      ensures Valid()
      ensures !HasClass(w.wmclass) ==>
        savedWindows == old(savedWindows) && trackers == old(trackers) && order == old(order) &&
        pendingSave == old(pendingSave)
      ensures HasClass(w.wmclass) ==> pendingSave.Some?
      ensures HasClass(w.wmclass) && !saved ==>
        var c := w.wmclass.value;
        savedWindows == Replay(old(savedWindows) - {c}, Flushed(old(Views(order)), old(trackers), OfClass(c)))
      ensures HasClass(w.wmclass) && !saved && old(NoneTracked(w.wmclass.value)) ==>
        savedWindows == old(savedWindows) - {w.wmclass.value} && trackers == old(trackers) && order == old(order)
      ensures HasClass(w.wmclass) && saved && !locked ==>
        var c := w.wmclass.value;
        savedWindows == old(savedWindows)[c := FromFrame(w.frame, false)] &&
        (old(w in trackers) ==> trackers == old(trackers) && order == old(order)) &&
        (old(w !in trackers) ==> trackers == old(trackers)[w := Tracker(c, None)] && order == old(order) + [w])
      ensures HasClass(w.wmclass) && saved && locked ==>
        var c := w.wmclass.value;
        savedWindows == Replay(old(savedWindows)[c := FromFrame(w.frame, true)], Flushed(old(Views(order)), old(trackers), OfClass(c)))
      ensures HasClass(w.wmclass) && (!saved || locked) ==>
        var c := w.wmclass.value;
        order == Kept(old(Views(order)), OfClass(c)) &&
        (forall v :: v in trackers <==> v in old(trackers) && v.wmclass != Some(c)) &&
        (forall v :: v in trackers ==> trackers[v] == old(trackers)[v])
    {
      var c := w.wmclass;
      if !HasClass(c) {
        return;
      }
      var wmclass := c.value;
      ghost var vs := Views(order);
      if !saved {
        ghost var none := NoneTracked(wmclass);
        savedWindows := savedWindows - {wmclass};
        SaveSettings();
        assert Views(order) == vs && NoneTracked(wmclass) == none;
        StopTracking(wmclass);
        return;
      }
      savedWindows := savedWindows[wmclass := FromFrame(w.frame, locked)];
      SaveSettings();
      if !locked {
        StartTracking(w, wmclass);
      } else {
        assert Views(order) == vs;
        StopTracking(wmclass);
      }
    }

    /** `updateWindow` with the two steps of the forget and lock cases in
        the other order: tracking of the class stops first (flushing what
        is pending), and only then is the record deleted or written locked,
        so the user's choice is what the table ends up holding. */
    method UpdateWindowCorrected(w: Window, saved: bool, locked: bool)
      requires Valid()
      modifies this`trackers, this`order, this`savedWindows, this`pendingSave, this`nextTimer
      ensures Valid()
      ensures !HasClass(w.wmclass) ==>
        savedWindows == old(savedWindows) && trackers == old(trackers) && order == old(order) &&
        pendingSave == old(pendingSave)
      ensures HasClass(w.wmclass) ==> pendingSave.Some?
      ensures HasClass(w.wmclass) ==>
        var c := w.wmclass.value;
        (saved ==> c in savedWindows && savedWindows[c] == FromFrame(w.frame, locked)) &&
        (!saved ==> c !in savedWindows)
      ensures HasClass(w.wmclass) && (!saved || locked) ==>
        var c := w.wmclass.value;
        var flushed := Replay(old(savedWindows), Flushed(old(Views(order)), old(trackers), OfClass(c)));
        savedWindows == (if saved then flushed[c := FromFrame(w.frame, true)] else flushed - {c}) &&
        order == Kept(old(Views(order)), OfClass(c)) &&
        (forall v :: v in trackers <==> v in old(trackers) && v.wmclass != Some(c)) &&
        (forall v :: v in trackers ==> trackers[v] == old(trackers)[v])
      ensures HasClass(w.wmclass) && (!saved || locked) && old(ClassesCurrent()) ==>
        forall v :: v in trackers ==> trackers[v].wmclass != w.wmclass.value
      ensures HasClass(w.wmclass) && saved && !locked ==>
        var c := w.wmclass.value;
        savedWindows == old(savedWindows)[c := FromFrame(w.frame, false)] &&
        (old(w in trackers) ==> trackers == old(trackers) && order == old(order)) &&
        (old(w !in trackers) ==> trackers == old(trackers)[w := Tracker(c, None)] && order == old(order) + [w])
    {
      var c := w.wmclass;
      if !HasClass(c) {
        return;
      }
      var wmclass := c.value;
      if saved && !locked {
        savedWindows := savedWindows[wmclass := FromFrame(w.frame, false)];
        SaveSettings();
        StartTracking(w, wmclass);
        return;
      }
      StopTracking(wmclass);
      if saved {
        savedWindows := savedWindows[wmclass := FromFrame(w.frame, true)];
      } else {
        savedWindows := savedWindows - {wmclass};
      }
      SaveSettings();
    }

    /** `_onWindowCreated` (run after the idle deferral): only a NORMAL
        window with a class that is saved gets a `first-frame` handler. */
    method OnWindowCreated(w: Window)
      requires Valid()
      modifies this`awaitingFirstFrame
      ensures Valid()
      ensures w.windowType == Normal && HasClass(w.wmclass) && IsSaved(w.wmclass.value) ==>
        awaitingFirstFrame == old(awaitingFirstFrame)[w := w.wmclass.value]
      ensures !(w.windowType == Normal && HasClass(w.wmclass) && IsSaved(w.wmclass.value)) ==>
        awaitingFirstFrame == old(awaitingFirstFrame)
    {
      if w.windowType != Normal {
        return;
      }
      var c := w.wmclass;
      if !HasClass(c) {
        return;
      }
      if !IsSaved(c.value) {
        return;
      }
      awaitingFirstFrame := awaitingFirstFrame[w := c.value];
    }

    /** The `first-frame` handler. When the captured class still has a
        record, the window is moved and resized to it, tracked unless the
        class is locked, and the handler disconnected (`completed`). When
        the class was forgotten in the meantime, reading the missing
        record throws before anything is done, and the handler stays
        connected. */
    method OnFirstFrame(w: Window) returns (completed: bool)
      requires Valid() && w in awaitingFirstFrame
      modifies this`trackers, this`order, this`awaitingFirstFrame, w`frame
      ensures Valid()
      ensures completed <==> old(awaitingFirstFrame[w]) in savedWindows
      ensures !completed ==>
        trackers == old(trackers) && order == old(order) &&
        awaitingFirstFrame == old(awaitingFirstFrame) && w.frame == old(w.frame)
      ensures completed ==>
        var c := old(awaitingFirstFrame[w]);
        w.frame == FrameOf(savedWindows[c]) &&
        awaitingFirstFrame == old(awaitingFirstFrame) - {w} &&
        (IsLocked(c) ==> trackers == old(trackers) && order == old(order)) &&
        (!IsLocked(c) && old(w in trackers) ==> trackers == old(trackers) && order == old(order)) &&
        (!IsLocked(c) && old(w !in trackers) ==> trackers == old(trackers)[w := Tracker(c, None)] && order == old(order) + [w])
    {
      var wmclass := awaitingFirstFrame[w];
      if wmclass !in savedWindows {
        return false;
      }
      var g := savedWindows[wmclass];
      w.MoveResizeFrame(FrameOf(g));
      if !IsLocked(wmclass) {
        StartTracking(w, wmclass);
      }
      awaitingFirstFrame := awaitingFirstFrame - {w};
      return true;
    }

    /** `destroy`: stops watching for new windows, disconnects every
        tracker (recording pending updates), then cancels any pending save
        and writes the table at once. First-frame handlers already
        connected stay connected. */
    method Destroy()
      requires Valid()
      modifies this`trackers, this`order, this`savedWindows, this`pendingSave, this`nextTimer, this`persisted,
        this`watchingCreation
      ensures Valid()
      ensures !watchingCreation
      ensures trackers == map[] && order == []
      ensures pendingSave == None && persisted == savedWindows
      ensures savedWindows == Replay(old(savedWindows), Flushed(old(Views(order)), old(trackers), All))
      ensures old(NonePending()) ==> Flushed(old(Views(order)), old(trackers), All) == []
    {
      ghost var vs := Views(order);
      if NonePending() {
        NothingToFlush();
      }
      watchingCreation := false;
      assert Views(order) == vs;
      DisconnectInScope(All, vs);
      FlushPendingSave();
      trackers := map[];
      order := [];
    }

    /** With no update pending, a pass over the trackers writes nothing. */
    lemma NothingToFlush()
      requires NonePending()
      ensures Flushed(Views(order), trackers, All) == []
    {
      FlushedNone(Views(order), trackers, All);
    }

    /** No tracker has an update pending. */
    ghost predicate NonePending()
      reads this
    {
      forall v :: v in trackers ==> trackers[v].pendingUpdate.None?
    }

    /** Nothing is left that could write the settings: creation is not
        watched, no tracker, no pending save, no `first-frame` handler. */
    ghost predicate Quiet()
      reads this
    {
      !watchingCreation && trackers == map[] && pendingSave == None && awaitingFirstFrame == map[]
    }

    /** `destroy` as intended: it also disconnects the `first-frame`
        handlers still waiting. Afterwards no timer callback and no
        handler can run (each requires a live slot or handler), and the
        settings key holds the table. */
    method DestroyCorrected()
      requires Valid()
      modifies this`trackers, this`order, this`savedWindows, this`pendingSave, this`nextTimer, this`persisted,
        this`watchingCreation, this`awaitingFirstFrame
      ensures Valid() && Quiet()
      ensures persisted == savedWindows
      ensures savedWindows == Replay(old(savedWindows), Flushed(old(Views(order)), old(trackers), All))
    {
      Destroy();
      awaitingFirstFrame := map[];
    }

    /** `_onWindowCreated` as intended: the idle callback does nothing once
        the extension is destroyed (as if `destroy` had removed the idle
        sources it queued). */
    method OnWindowCreatedCorrected(w: Window)
      requires Valid()
      modifies this`awaitingFirstFrame
      ensures Valid()
      ensures old(Quiet()) ==> Quiet()
      ensures !watchingCreation ==> awaitingFirstFrame == old(awaitingFirstFrame)
      ensures watchingCreation ==>
        (w.windowType == Normal && HasClass(w.wmclass) && IsSaved(w.wmclass.value) ==>
          awaitingFirstFrame == old(awaitingFirstFrame)[w := w.wmclass.value]) &&
        (!(w.windowType == Normal && HasClass(w.wmclass) && IsSaved(w.wmclass.value)) ==>
          awaitingFirstFrame == old(awaitingFirstFrame))
    {
      if !watchingCreation {
        return;
      }
      OnWindowCreated(w);
    }

    /** The end of `destroy`: a pending save is cancelled and the table
        written at once; with none pending, the settings already hold it. */
    method FlushPendingSave()
      requires Valid()
      modifies this`pendingSave, this`persisted
      ensures Valid()
      ensures pendingSave == None && persisted == savedWindows
    {
      if pendingSave.Some? {
        pendingSave := None;
        FlushSettings();
      }
    }

    /** The windows the menu lists, in the order of the actors: the NORMAL
        windows with a class, each with the class's status. */
    ghost function Listed(actors: seq<Window?>): (r: seq<OpenWindow>)
      reads this, actors
      ensures |r| <= |actors|
      decreases |actors|
    {
      if actors == [] then []
      else
        var a := actors[|actors| - 1];
        Listed(actors[..|actors| - 1]) +
        (if a != null && a.windowType == Normal && HasClass(a.wmclass) then [EntryOf(a)] else [])
    }

    lemma {:induction false} ListedMembers(actors: seq<Window?>)
      ensures forall e :: e in Listed(actors) ==> Entry(e, actors)
      ensures forall v: Window :: v in actors && v.windowType == Normal && HasClass(v.wmclass) ==>
        EntryOf(v) in Listed(actors)
      decreases |actors|
    {
      if actors != [] {
        ListedMembers(actors[..|actors| - 1]);
        assert actors == actors[..|actors| - 1] + [actors[|actors| - 1]];
      }
    }

    /** The listing grows by one actor at a time. */
    lemma ListedStep(actors: seq<Window?>, i: nat)
      requires i < |actors|
      ensures Listed(actors[..i + 1]) == Listed(actors[..i]) +
        (var a := actors[i]; if a != null && a.windowType == Normal && HasClass(a.wmclass) then [EntryOf(a)] else [])
    {
      assert actors[..i + 1][..i] == actors[..i];
    }

    /** The menu entry for a window with a class. */
    function EntryOf(v: Window): (e: OpenWindow)
      reads this, v
      requires HasClass(v.wmclass)
    {
      OpenWindow(v, v.wmclass.value, IsSaved(v.wmclass.value), IsLocked(v.wmclass.value))
    }

    /** `e` describes a listed window of `actors` and the status of its class. */
    ghost predicate Entry(e: OpenWindow, actors: seq<Window?>)
      reads this, actors
    {
      e.window in actors && e.window.windowType == Normal && e.window.wmclass == Some(e.wmclass) &&
      e.wmclass != "" && e.saved == IsSaved(e.wmclass) && e.locked == IsLocked(e.wmclass)
    }

    /** `getOpenWindows`: every NORMAL window with a class, annotated with
        `isSaved`/`isLocked` of its class, sorted by class. */
    method GetOpenWindows(actors: seq<Window?>) returns (r: seq<OpenWindow>)
      ensures r == SortByClass(Listed(actors))
      ensures SortedByClass(r) && multiset(r) == multiset(Listed(actors))
    {
      var windows := CollectWindows(actors);
      r := SortByClass(windows);
      SortByClassCorrect(windows);
    }

    /** The loop of `getOpenWindows`, before the sort. */
    method CollectWindows(actors: seq<Window?>) returns (windows: seq<OpenWindow>)
      ensures windows == Listed(actors)
    {
      windows := [];
      var i := 0;
      while i < |actors|
        invariant 0 <= i <= |actors|
        invariant windows == Listed(actors[..i])
      {
        var a := actors[i];
        ListedStep(actors, i);
        if a != null && a.windowType == Normal {
          var c := a.wmclass;
          if HasClass(c) {
            windows := windows + [EntryOf(a)];
          }
        }
        i := i + 1;
      }
      assert actors[..i] == actors;
    }

    /** The sorted listing is ascending by class, a permutation of the
        listed windows, and lists every eligible window with its status. */
    lemma ListingSorted(actors: seq<Window?>)
      ensures SortedByClass(SortByClass(Listed(actors)))
      ensures multiset(SortByClass(Listed(actors))) == multiset(Listed(actors))
      ensures forall e :: e in SortByClass(Listed(actors)) ==> Entry(e, actors)
      ensures forall v: Window :: v in actors && v.windowType == Normal && HasClass(v.wmclass) ==>
        EntryOf(v) in SortByClass(Listed(actors))
    {
      var l := Listed(actors);
      SortByClassCorrect(l);
      ListedMembers(actors);
      forall e | e in SortByClass(l) ensures Entry(e, actors) {
        assert e in multiset(SortByClass(l));
      }
      forall v: Window | v in actors && v.windowType == Normal && HasClass(v.wmclass)
        ensures EntryOf(v) in SortByClass(l)
      {
        assert EntryOf(v) in multiset(l);
      }
    }
  }
}
