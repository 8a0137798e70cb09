# Restore Geometry: the bookkeeping of `RestoreGeometryExtension`

The GNOME Shell extension "Restore Geometry" remembers a window's position
and size per window class. When a window of a remembered class appears,
the extension moves it back to that geometry. While the window is tracked,
every move or resize is recorded again, after a debounce. The quick-settings
menu lets the user remember, lock or forget a class. The table of remembered
geometries is kept in memory and written to the `tracked-windows` settings
key, also after a debounce.

This project models that bookkeeping, `RestoreGeometryExtension` in
`src/extension.ts`, as a Dafny class whose methods are the extension's
operations and its signal and timer callbacks:

- `types.dfy`: the geometry record, the table keyed by window class, and
  the shell's window (type, class, frame). A window is an object because
  the tracker map is keyed by window identity. Timers read the window's
  current frame when they fire.
- `geometry_table.dfy`: `Replay`, the effect of a run of geometry writes on
  the table, and its laws.
- `tracker_order.dfy`: the insertion order of the tracker `Map` and what
  `delete` does to it. This order decides which pending write lands last
  when several trackers are torn down in one pass.
- `class_order.dfy`: the ordering of the menu's list by class.
- `extension.dfy`: the extension object.
  - Its state is the table, the persisted copy of it, the save-timer slot,
    the trackers (each with its update-timer slot) and their order, whether
    new windows are watched, and the pending `first-frame` handlers.
  - The invariant `Valid` holds across every operation. It says that every
    tracker is listed in the order exactly once, and that every live timer
    id was handed out. It also says that whenever no save is pending, the
    settings key holds the table.
  - The teardown passes of `_stopTracking` and `destroy` are specified by
    `Kept`, the trackers left, and `Flushed`, the pending writes recorded.
    Both are computed over a snapshot of the trackers in insertion order.
- `findings.dfy`: three places where the code does not do what it
  promises. The first is in `isSaved`, which the constructor's pass,
  window creation and the menu all use. The second is in the menu's
  `updateWindow`, and the third is in `destroy`.

Each timer is a slot holding the id of its one live GLib source, if any.
Cancelling a timer empties or replaces its slot. The method for a timer
firing requires the slot to hold that timer's id, so a cancelled timer
never fires.

## Model

| member | source | states |
|---|---|---|
| Types.HasClass | src/extension.ts:57 | a class counts exactly when JavaScript treats it as true: a window without a class (`null`) and the empty class are both skipped (also at lines 84, 113 and 231) |
| Types.FromFrame | src/extension.ts:125-131 | the record written for a window holds exactly the window's frame rectangle and the given lock flag |
| Types.Window.MoveResizeFrame | src/extension.ts:95 | after a move/resize the window's frame is the requested rectangle |
| GeometryTable.Replay | src/extension.ts:145-155 | a run of geometry writes never removes a class from the table |
| GeometryTable.LastForFound | src/extension.ts:145-155 | the last write of a class in a run of writes exists exactly when some write of that class does, and it is one of them |
| GeometryTable.ReplayAt | src/extension.ts:145-155 | after a run of geometry writes, a class has a record iff it had one or was written. The last write of a class wins, unlocked. An unwritten class keeps its record. Nothing is removed |
| GeometryTable.ReplayAppend | src/extension.ts:145-155 | writing one run and then another is writing their concatenation |
| GeometryTable.ReplayKeys | src/extension.ts:145-155 | the classes after a run of writes are the old ones plus the written ones |
| ClassOrder.StrLeqTotal | src/extension.ts:242 | any two classes are comparable |
| ClassOrder.StrLeqTrans | src/extension.ts:242 | the class order is transitive |
| ClassOrder.Insert | src/extension.ts:242 | inserting an entry lengthens the list by exactly one |
| ClassOrder.SortByClass | src/extension.ts:242 | sorting keeps the length of the list |
| ClassOrder.InsertPermutes | src/extension.ts:242 | inserting an entry into a list adds exactly that entry |
| ClassOrder.InsertSorted | src/extension.ts:242 | inserting into a list ascending by class keeps it ascending |
| ClassOrder.SortByClassCorrect | src/extension.ts:242 | the sorted list is ascending by class and a permutation of its input |
| TrackerOrder.Without | src/extension.ts:189 | `Map.delete` never lengthens the order |
| TrackerOrder.WithoutAbsent | src/extension.ts:189 | deleting a window that is not tracked leaves the order as it was |
| TrackerOrder.WithoutMembers | src/extension.ts:189 | deleting a window removes exactly that window and keeps the order free of duplicates |
| TrackerOrder.WithoutSplit | src/extension.ts:189 | deleting a window that occurs once leaves the entries before it and after it, in order |
| RestoreGeometry.Flushed | src/extension.ts:184-199 | a teardown pass never records more writes than its snapshot has windows |
| RestoreGeometry.FlushedHas | src/extension.ts:184-188 | a tracker in scope with an update pending contributes its write (its captured class at the window's frame) to a teardown pass |
| RestoreGeometry.FlushedFrom | src/extension.ts:184-199 | conversely, every write a teardown pass records is the captured class and frame of a window of the snapshot that is tracked, in scope and has an update pending |
| RestoreGeometry.FlushedNone | src/extension.ts:184-199 | a teardown pass in which no window is both in scope and pending writes nothing |
| RestoreGeometry.KeptNone | src/extension.ts:194-199 | a teardown pass in which no window is in scope keeps every window, in order |
| RestoreGeometry.Kept | src/extension.ts:194-199 | a teardown of every tracker (as in `destroy`) leaves none tracked |
| RestoreGeometry.KeptMembers | src/extension.ts:194-200 | the windows a teardown pass leaves tracked are exactly the snapshot's windows out of scope |
| RestoreGeometry.KeptTracked | src/extension.ts:194-200 | a pass over the tracked windows leaves tracked exactly those whose current class is out of scope |
| RestoreGeometry.PassFlushed | src/extension.ts:184-188 | a pass over one more window records that window's pending write after all earlier ones, if it is in scope and tracked |
| RestoreGeometry.PassOrder | src/extension.ts:195-199 | after the first i windows of a pass, deleting the next window when in scope yields the order of i+1 windows; out of scope, the order is unchanged |
| RestoreGeometry.PassSkip | src/extension.ts:195-199 | passing over a window whose class is out of scope keeps it, in its place |
| RestoreGeometry.PassDrop | src/extension.ts:189-199 | disconnecting a window in scope that occurs once takes it out of the order and keeps the windows before and after it in order |
| RestoreGeometry.StartTrackersMembers | src/extension.ts:53-61 | the constructor's pass tracks exactly the listed windows whose class is saved and not locked, each under that class with no update pending |
| RestoreGeometry.RestoreGeometryExtension.constructor | src/extension.ts:53-61 | starts with the loaded table, persisted and no save pending. It watches for new windows and tracks exactly the existing windows whose class is saved and unlocked, in the order of the actor list (a window listed twice once, at its first place) |
| RestoreGeometry.RestoreGeometryExtension.TrackExisting | src/extension.ts:53-61 | the constructor's loop over the actors leaves the trackers and their order those of the whole pass |
| RestoreGeometry.RestoreGeometryExtension.TrackAtStart | src/extension.ts:54-60 | one step of the constructor's pass keeps the invariant and adds the window, last in the order, iff its class is saved, unlocked and it is not yet tracked; otherwise trackers and order are unchanged |
| RestoreGeometry.RestoreGeometryExtension.IsSaved | src/extension.ts:103-105 | a class is saved iff the table has a record for it |
| RestoreGeometry.RestoreGeometryExtension.IsLocked | src/extension.ts:107-109 | a class is locked iff it has a record whose `locked` is present and true. Unknown classes and records without the field are not locked. Locked implies saved |
| RestoreGeometry.RestoreGeometryExtension.FlushSettings | src/extension.ts:213-216 | the settings key receives the whole table |
| RestoreGeometry.RestoreGeometryExtension.SaveSettings | src/extension.ts:202-211 | exactly one save is pending afterwards, a fresh one replacing any earlier one; nothing is written yet |
| RestoreGeometry.RestoreGeometryExtension.OnSaveTimer | src/extension.ts:206-210 | when the live save timer fires, the slot is cleared and the settings key holds the table |
| RestoreGeometry.RestoreGeometryExtension.DoUpdateGeometry | src/extension.ts:145-155 | the class captured at tracking time gets the window's current frame, unlocked, and a save is scheduled |
| RestoreGeometry.RestoreGeometryExtension.StartTracking | src/extension.ts:140-192 | an untracked window gains exactly one tracker, last in the order, with no update pending; a tracked one changes nothing |
| RestoreGeometry.RestoreGeometryExtension.OnGeometryChanged | src/extension.ts:158-167 | a move or resize replaces the window's one pending update with a fresh timer and leaves the table alone |
| RestoreGeometry.RestoreGeometryExtension.OnUpdateTimer | src/extension.ts:162-166 | when the live update timer fires, its slot is cleared, the captured class gets the current frame unlocked, and a save is scheduled |
| RestoreGeometry.RestoreGeometryExtension.Disconnect | src/extension.ts:180-190 | the tracker is removed from the map and the order. A pending update is recorded at the current frame, scheduling a save; with none, the table and the save timer are untouched |
| RestoreGeometry.RestoreGeometryExtension.OnUnmanaged | src/extension.ts:172-178 | an unmanaged window loses its tracker, and its pending update is dropped: the table and the save timer are unchanged |
| RestoreGeometry.RestoreGeometryExtension.PassOne | src/extension.ts:195-199 | one window of a teardown pass keeps the pass invariant: order, trackers and table are those of one more window handled |
| RestoreGeometry.RestoreGeometryExtension.DisconnectInScope | src/extension.ts:195-199 | a pass over a snapshot of the trackers, in insertion order, disconnects those in scope. The order becomes `Kept`, the others keep their trackers, the table gets the pending writes in pass order, and a pending save stays pending |
| RestoreGeometry.RestoreGeometryExtension.StopTracking | src/extension.ts:194-200 | exactly the trackers whose window currently has the class are removed, the others are untouched and keep their relative order, and the pending updates of the removed ones are recorded in insertion order. When no tracked window has the class (as after a first call), trackers, order and table are unchanged |
| RestoreGeometry.RestoreGeometryExtension.UpdateWindow | src/extension.ts:111-138 | no class: nothing changes. Otherwise a save is pending. Forget: the class is deleted and then its trackers stopped, flushing their writes. Remember unlocked: current frame recorded and the window tracked, last in the order if it was not tracked. Remember locked: recorded locked, then the class's trackers stopped. When stopping, the order keeps the other windows in their order and their trackers are unchanged. Forgetting a class no tracked window has deletes its record and leaves trackers and order unchanged |
| RestoreGeometry.RestoreGeometryExtension.UpdateWindowCorrected | src/extension.ts:111-138 | the intended `updateWindow`: after forgetting, the class has no record; after remembering, its record is the current frame with the chosen lock. Trackers and order change as in `UpdateWindow`. After forgetting or locking, if every tracked window still had its captured class, no tracker of the class is left, so no later update writes it |
| RestoreGeometry.RestoreGeometryExtension.OnWindowCreated | src/extension.ts:79-93 | exactly a NORMAL window whose class has a record of its own in the table gets a `first-frame` handler, remembering the class |
| RestoreGeometry.RestoreGeometryExtension.OnFirstFrame | src/extension.ts:93-100 | completes iff the class still has a record. Then the window takes the record's frame, is tracked iff unlocked (last in the order, if it was not tracked), and the handler goes. Otherwise nothing changes |
| RestoreGeometry.RestoreGeometryExtension.Destroy | src/extension.ts:64-77 | every tracker is disconnected with its pending update recorded. Creation is no longer watched. No save is pending and the settings key holds the table. With no update pending, the pass records no write, so the table is unchanged |
| RestoreGeometry.RestoreGeometryExtension.DestroyCorrected | src/extension.ts:64-77 | the intended `destroy`: as `Destroy`, and the waiting `first-frame` handlers are disconnected too, so no tracker, timer or handler is left that could write the settings afterwards |
| RestoreGeometry.RestoreGeometryExtension.OnWindowCreatedCorrected | src/extension.ts:44-49 | the intended idle callback: after teardown it changes nothing, so the extension stays without handlers; before, it is `OnWindowCreated` |
| RestoreGeometry.RestoreGeometryExtension.FlushPendingSave | src/extension.ts:70-74 | a pending save is cancelled and the table written at once; afterwards no save is pending and the settings key holds the table |
| RestoreGeometry.RestoreGeometryExtension.Listed | src/extension.ts:225-240 | the menu lists at most one entry per actor |
| RestoreGeometry.RestoreGeometryExtension.CollectWindows | src/extension.ts:224-240 | the loop of `getOpenWindows` collects exactly the listing, in actor order |
| RestoreGeometry.RestoreGeometryExtension.ListedMembers | src/extension.ts:224-239 | the listing holds only NORMAL windows with a class, each with its class's saved/locked status (saved meaning an own record), and holds every such window |
| RestoreGeometry.RestoreGeometryExtension.GetOpenWindows | src/extension.ts:218-244 | the result is the listing (saved meaning an own record) sorted by class: ascending, and a permutation of the listed windows |
| RestoreGeometry.RestoreGeometryExtension.ListingSorted | src/extension.ts:218-244 | the menu list is ascending by class, holds only eligible windows with their status, and holds every eligible window |
| Findings.PrototypeNameIsSaved | src/extension.ts:103-105 | with an empty table, the class `toString` counts as saved as written although it has no record |
| Findings.IsSavedAsWritten | src/extension.ts:103-105 | the test as written finds every class with a record, and apart from the names inherited from `Object.prototype` it finds only those |
| Findings.PickedAsWrittenDiffers | src/extension.ts:53-61 | the constructor's test as written picks every window the intended test picks, and picks one more exactly when the class is an inherited name with no record: a window of class `toString` is tracked from an empty table |
| Findings.WriteAfterDestroy | src/extension.ts:64-100 | a window of a saved class created before `destroy` shows its first frame after it, is tracked again, and a later move reaches the settings key: the key ends holding the new frame |
| Findings.DestroyWhileWaiting | src/extension.ts:64-93 | a saved class's window created before `destroy` keeps its `first-frame` handler through it, while the settings key holds the table |
| Findings.FirstFrameAfterDestroy | src/extension.ts:93-100 | that handler, run after `destroy`, tracks the window again |
| Findings.MoveAfterDestroy | src/extension.ts:145-215 | a move of the re-tracked window is written to the settings key by the update and save timers |
| Findings.StopFlushesPending | src/extension.ts:117-120 | stopping a class with a pending update of that class leaves that class recorded and unlocked, whatever the table held before |
| Findings.ForgetWhilePending | src/extension.ts:133-137 | one tracked window of class c, update pending: forgetting c leaves c recorded, and locking c leaves it unlocked |
| Findings.ForgetTwice | src/extension.ts:117-120 | a second forget of a class finds no tracker of it: trackers and order stay as the first forget left them, and it deletes the record the first forget's flush wrote back |

## Left out

- The GNOME Shell, Meta, Clutter and St interfaces are not modelled. This covers `global.display`, the window actors, `get_compositor_private` and the on-screen effect of `move_resize_frame`. A window is its type, class and frame. The list of window actors is a parameter of the constructor and of `GetOpenWindows`.
- GLib timers and GObject signal connections are not modelled; timers are id slots and every callback is a method. Real time, the one-second delays and the idle deferral of `window-created` (line 46) are not modelled. `OnWindowCreated` is the deferred call.
- `JSON.parse` and `JSON.stringify` are not modelled, and the persisted value is the table itself. The code has no recovery for a malformed settings value: `JSON.parse` at line 37 throws out of the constructor. The constructor therefore receives an already parsed table.
- `localeCompare` (line 242) depends on the locale; it is modelled as code-point lexicographic order, which is total.
- ClassOrder.SortByClassCorrect: the stability of `Array.prototype.sort` is not stated; entries of equal class may come in any order as far as the proofs go.
- Sorting is a function on sequences, not an in-place sort of an array.
- The UI classes `LockableSwitchMenuItem` and `WindowListToggle` are not modelled; they are widget code. Neither is the `RestoreGeometry` enable/disable wrapper.
- RestoreGeometry.RestoreGeometryExtension.DisconnectInScope: about the save timer it states only that a pending save stays pending, not that a save is scheduled whenever a pending update is recorded.
- RestoreGeometry.RestoreGeometryExtension.StopTracking: about the save timer it states only that a pending save stays pending, not that a save is scheduled whenever a pending update is recorded.
- RestoreGeometry.RestoreGeometryExtension.UpdateWindowCorrected: that a lock stops later automatic updates of the class is stated only when every tracked window still reports the class its tracker captured (`ClassesCurrent`). `_stopTracking` selects trackers by the window's current class (line 196), while a tracker writes the class it captured (lines 140 and 147). A window that changed its class after tracking began keeps its tracker, and its next update writes the old class back with `locked: false`.
- RestoreGeometry.RestoreGeometryExtension.Destroy: as in the code, `first-frame` handlers already connected and idle callbacks already queued (line 46) survive it. `Destroy` keeps `Valid()` and leaves `awaitingFirstFrame` as it was, so `OnWindowCreated` and `OnFirstFrame` can still run afterwards. A handler that completes starts tracking again (line 97), and the window's next move ends in a settings write (line 215) after teardown. `Findings.WriteAfterDestroy` shows one such run; it is the third finding.
- A window destroyed with an update pending loses that update: the `unmanaged` handler cancels it without recording it and then disconnects (lines 172-178). `OnUnmanaged` models exactly that.
- RestoreGeometry.RestoreGeometryExtension.IsSaved is the intended own-key test, and every member of the class uses it: the constructor's pass (`TrackAtStart`), `OnWindowCreated`, `OnFirstFrame` and the menu listing (`EntryOf`, `Listed`, `CollectWindows`, `GetOpenWindows`). The code's `in` (line 104) also finds names inherited from `Object.prototype`. With an empty table, the code therefore tracks an existing window of class `toString` at start (line 57). It connects a `first-frame` handler for a new NORMAL window of that class (line 88), and it lists such a window with `saved: true` (line 237). When that handler runs, it reads an inherited function as the record (line 94). The model does none of this. The written test is `Findings.IsSavedAsWritten`, and the first finding states how it differs.
- RestoreGeometry.RestoreGeometryExtension.OnFirstFrame: a handler that throws (its class was forgotten) stays in `awaitingFirstFrame`, so the model lets it run again. The shell emits `first-frame` once per actor, so in the code it never runs a second time.

## Findings

| source | as written | input that shows it | evidently intended | confidence | as-written member | corrected member |
|---|---|---|---|---|---|---|
| src/extension.ts:103-105 | `wmclass in this._savedWindows` on a plain object also finds names inherited from `Object.prototype` | table `{}`, class `toString` (or `constructor`, `valueOf`, ...): `isSaved` is true | a class is saved iff the table has an own record for it | high; not executed | Findings.PrototypeNameIsSaved | RestoreGeometry.RestoreGeometryExtension.IsSaved |
| src/extension.ts:117-120 | the record is deleted (or written locked, lines 125-136) before `_stopTracking`; the stop flushes a pending update, which writes the class back with `locked: false` | one tracked window of class c whose update timer is running; the user forgets c, or locks it, from the menu | after forgetting, c has no record; after locking, c's record is locked | medium; not executed | Findings.ForgetWhilePending | RestoreGeometry.RestoreGeometryExtension.UpdateWindowCorrected |
| src/extension.ts:64-77 | `destroy` disconnects `window-created` and the trackers but neither the `first-frame` handlers already connected (lines 93-100) nor the idle callbacks already queued (line 46) | class `C` saved; a window of class `C` is created, then the extension is destroyed, then the window shows its first frame and is moved | after `destroy` nothing writes the settings key | medium; not executed | Findings.WriteAfterDestroy | RestoreGeometry.RestoreGeometryExtension.DestroyCorrected |
