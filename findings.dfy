/** Three places where the extension, as written, does not do what it
    promises. Each comes with the behaviour as written and the input that
    shows the difference. For the first, the intended own-key `isSaved`
    replaces the written one throughout the model
    (`RestoreGeometryExtension.IsSaved`, used by the constructor's pass,
    `OnWindowCreated` and the menu listing); for the other two, the
    intended method stands beside the written one
    (`RestoreGeometryExtension.UpdateWindowCorrected`,
    `RestoreGeometryExtension.DestroyCorrected`). */
module Findings {
  import opened Types
  import opened GeometryTable
  import opened RestoreGeometry

  /** The names every plain JavaScript object inherits from
      `Object.prototype`; the `in` operator sees them as present. */
  const PrototypeNames: set<string> := {
    "constructor", "hasOwnProperty", "isPrototypeOf", "propertyIsEnumerable",
    "toLocaleString", "toString", "valueOf", "__proto__",
    "__defineGetter__", "__defineSetter__", "__lookupGetter__", "__lookupSetter__"
  }

  /** `isSaved` as written: `wmclass in this._savedWindows` on the plain
      object that `JSON.parse` returned, which also finds inherited names.
      Apart from those names it agrees with the table's own keys. */
  function IsSavedAsWritten(t: Table, wmclass: string): (r: bool)
    ensures wmclass in t ==> r
    ensures wmclass !in PrototypeNames ==> (r <==> wmclass in t)
  {
    wmclass in t || wmclass in PrototypeNames
  }

  /** A window of class `toString` counts as saved although nothing was
      ever remembered for it, so it is tracked and "restored" from a
      record that does not exist. */
  lemma PrototypeNameIsSaved()
    ensures var t: Table := map[]; IsSavedAsWritten(t, "toString") && "toString" !in t
  {
  }

  /** The constructor's test as written: `wmclass && this.isSaved(wmclass)
      && !this.isLocked(wmclass)`. `isLocked` reads `locked` off whatever
      `isSaved` found; an inherited method has no such field, so a class
      without a record of its own is never locked. */
  predicate PickedAsWritten(v: View, t: Table)
  {
    HasClass(v.wmclass) && IsSavedAsWritten(t, v.wmclass.value) &&
    !(v.wmclass.value in t && t[v.wmclass.value].locked == Some(true))
  }

  /** The constructor as written starts tracking a window that the
      intended test (`Picked`) leaves alone exactly when the window's class
      is an inherited name with no record of its own; in particular a
      window of class `toString` is tracked when the table is empty. */
  lemma PickedAsWrittenDiffers(v: View, t: Table)
    ensures PickedAsWritten(v, t) && !Picked(v, t) <==>
      HasClass(v.wmclass) && v.wmclass.value in PrototypeNames && v.wmclass.value !in t
    ensures PickedAsWritten(v, t) <== Picked(v, t)
  {
  }

  /** `updateWindow(window, false, _)` and `updateWindow(window, true, true)`
      as written: the record is deleted (or written locked) before
      `_stopTracking` runs, and stopping a tracker of that class with an
      update pending writes the window's frame back under the class with
      `locked: false`. So a class the user just forgot is remembered again,
      and a class the user just locked is unlocked. */
  lemma {:induction false} StopFlushesPending(t: Table, vs: seq<View>, trs: map<Window, Tracker>, c: string, k: nat)
    requires k < |vs| && vs[k].window in trs && vs[k].wmclass == Some(c)
    requires trs[vs[k].window] == Tracker(c, trs[vs[k].window].pendingUpdate)
    requires trs[vs[k].window].pendingUpdate.Some?
    ensures var after := Replay(t, Flushed(vs, trs, OfClass(c)));
      c in after && after[c].locked == Some(false)
  {
    var cs := Flushed(vs, trs, OfClass(c));
    FlushedHas(vs, trs, OfClass(c), k);
    LastForFound(cs, c);
    ReplayAt(t, cs, c);
  }

  /** The smallest case: one tracked window of class `c` with its update
      timer running, and the user forgets `c` (or locks it). */
  lemma ForgetWhilePending(w: Window, c: string, f: Rect, t: Table)
    ensures var vs := [View(w, Some(c), f)];
      var trs := map[w := Tracker(c, Some(1))];
      var forgot := Replay(t - {c}, Flushed(vs, trs, OfClass(c)));
      var locked := Replay(t[c := FromFrame(f, true)], Flushed(vs, trs, OfClass(c)));
      c in forgot && locked[c] == FromFrame(f, false)
  {
    var vs := [View(w, Some(c), f)];
    var trs := map[w := Tracker(c, Some(1))];
    assert vs[..0] == [];
    assert Flushed(vs, trs, OfClass(c)) == [Capture(c, f)];
  }

  /** Forgetting a class twice. The first `updateWindow(window, false, _)`
      stops every tracker of the class, so the second finds none: trackers
      and order stay as the first left them, and the second delete removes
      whatever the first one's flush wrote back. `afterFirst` is the table
      between the two calls. */
  method ForgetTwice(ext: RestoreGeometryExtension, w: Window) returns (afterFirst: Table)
    requires ext.Valid() && HasClass(w.wmclass)
    modifies ext
    ensures ext.Valid()
    ensures var c := w.wmclass.value;
      afterFirst == Replay(old(ext.savedWindows) - {c}, Flushed(old(Views(ext.order)), old(ext.trackers), OfClass(c))) &&
      ext.savedWindows == afterFirst - {c} && c !in ext.savedWindows
    ensures ext.order == Kept(old(Views(ext.order)), OfClass(w.wmclass.value))
    ensures forall v :: v in ext.trackers <==> v in old(ext.trackers) && v.wmclass != w.wmclass
  {
    ext.UpdateWindow(w, false, false);
    afterFirst := ext.savedWindows;
    ext.UpdateWindow(w, false, false);
  }

  /** `destroy` as written leaves a connected `first-frame` handler in
      place. A window of a saved class `C` is created, the extension is
      destroyed (the settings key then holds `C` at frame `f`), and the
      window shows its first frame afterwards: it is tracked again, the
      user moves it to `g`, and the update and save timers write `g` to
      the settings key after teardown. */
  method WriteAfterDestroy(f: Rect, g: Rect) returns (ext: RestoreGeometryExtension, w: Window)
    ensures !ext.watchingCreation && w in ext.trackers
    ensures ext.persisted == map["C" := FromFrame(g, false)]
  {
    ext, w := DestroyWhileWaiting(f);
    FirstFrameAfterDestroy(ext, w);
    MoveAfterDestroy(ext, w, g);
  }

  /** The first half: the settings key holds `C` at `f` after `destroy`,
      and the window's `first-frame` handler is still connected. */
  method DestroyWhileWaiting(f: Rect) returns (ext: RestoreGeometryExtension, w: Window)
    ensures fresh(ext) && fresh(w)
    ensures ext.Valid() && !ext.watchingCreation
    ensures ext.savedWindows == map["C" := FromFrame(f, false)] && ext.persisted == ext.savedWindows
    ensures ext.trackers == map[] && ext.awaitingFirstFrame == map[w := "C"]
  {
    var settings: Table := map["C" := FromFrame(f, false)];
    ext := new RestoreGeometryExtension(settings, []);
    w := new Window(Normal, Some("C"), f);
    ext.OnWindowCreated(w);
    assert ext.order == [] && Views(ext.order) == [];
    ext.Destroy();
  }

  /** The second half: the first frame arrives and the window is tracked
      again under `C`. */
  method FirstFrameAfterDestroy(ext: RestoreGeometryExtension, w: Window)
    requires ext.Valid() && ext.trackers == map[] && ext.awaitingFirstFrame == map[w := "C"]
    requires "C" in ext.savedWindows && ext.savedWindows["C"].locked == Some(false)
    modifies ext, w
    ensures ext.Valid() && ext.trackers == map[w := Tracker("C", None)]
    ensures ext.savedWindows == old(ext.savedWindows) && ext.watchingCreation == old(ext.watchingCreation)
  {
    var completed := ext.OnFirstFrame(w);
  }

  /** The third: the user moves the window to `g`, and the update and save
      timers fire. */
  method MoveAfterDestroy(ext: RestoreGeometryExtension, w: Window, g: Rect)
    requires ext.Valid() && ext.trackers == map[w := Tracker("C", None)]
    modifies ext, w
    ensures w in ext.trackers && ext.watchingCreation == old(ext.watchingCreation)
    ensures ext.persisted == old(ext.savedWindows)["C" := FromFrame(g, false)]
  {
    w.MoveResizeFrame(g);
    ext.OnGeometryChanged(w);
    ext.OnUpdateTimer(w, ext.trackers[w].pendingUpdate.value);
    ext.OnSaveTimer(ext.pendingSave.value);
  }
}
