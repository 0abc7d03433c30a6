/**
 The quarantine handlers as steps of a transition system over the files and the table, with
 failures chosen freely and the rest of the world changing files away from the store in between.
 */
module QuarantineHandlers {
  import opened Wrappers
  import opened Paths
  import opened Quarantine

  datatype Status = Held | Restored | Deleted

  /** A row of the quarantine table. */
  datatype Row = Row(storeName: string, origPath: Path, signature: string, sha256: string, scanId: int,
                     status: Status, origMode: nat)

  /** The files and the table; `taken` remembers the bytes each recorded name was given. */
  datatype State = State(files: Files, rows: map<nat, Row>, nextId: nat, taken: map<string, string>)

  datatype Action =
    | HoldFile(path: string, signature: string, scanId: int, name: string, now: string,
               hold: HoldFaults, recorded: bool, undo: RestoreFaults)
    | RestoreItem(id: nat, sidecarReadable: bool, faults: RestoreFaults, statusWritten: bool)
    | DeleteItem(id: nat, purge: PurgeFaults, statusWritten: bool)
    | Outside(files: Files)

  function RowOf(sc: Sidecar): Row {
    Row(sc.name, sc.origPath, sc.signature, sc.sha256, if sc.scanId > 0 then sc.scanId else 0, Held, sc.origMode)
  }

  function SidecarOfRow(row: Row): Sidecar {
    Sidecar(row.storeName, row.origPath, row.origMode, row.signature, row.sha256, row.scanId, 0, "")
  }

  /** The sidecar file of a row if it can be read and parsed, else what the row itself records. */
  function SidecarFromItem(c: Config, fs: Files, row: Row, readable: bool): Sidecar {
    var p := SidecarPath(c, row.storeName);
    if readable && IsFile(fs, p) && c.unmarshal(fs[p].data).Some? then c.unmarshal(fs[p].data).value
    else SidecarOfRow(row)
  }

  predicate InStore(c: Config, p: Path) {
    StoreDir(c) <= p
  }

  /** Names are drawn afresh; changes from outside stay away from the store. */
  ghost predicate Enabled(c: Config, s: State, a: Action) {
    match a
    case HoldFile(_, _, _, name, _, _, _, _) =>
      FreshIn(c, s.files, name) && name !in s.taken && forall id :: id in s.rows ==> s.rows[id].storeName != name
    case Outside(files) =>
      forall p :: InStore(c, p) ==> (p in files <==> p in s.files) && (p in files ==> files[p] == s.files[p])
    case _ => true
  }

  // What holds whatever fails

  ghost predicate RowFits(c: Config, s: State, id: nat)
    requires id in s.rows
  {
    var row := s.rows[id];
    var p := SidecarPath(c, row.storeName);
    && id < s.nextId && IsStoreName(row.storeName) && row.storeName in s.taken
    && !InStore(c, row.origPath)
    && (p in s.files ==> && s.files[p].File?
                         && exists sc :: s.files[p].data == c.marshal(sc) && RowOf(sc).(status := row.status) == row)
  }

  ghost predicate Kept(c: Config, s: State) {
    && (forall id :: id in s.rows ==> RowFits(c, s, id))
    && (forall i, j :: i in s.rows && j in s.rows && i != j ==> s.rows[i].storeName != s.rows[j].storeName)
    && (forall p :: p in s.files && StoreDir(c) < p ==> s.files[p].File?)
  }

  /** Both ways of finding out where an item belongs agree on everything a restore uses. */
  lemma SidecarAgreesWithRow(c: Config, s: State, id: nat, readable: bool)
    requires Faithful(c) && Kept(c, s) && id in s.rows
    ensures var sc, row := SidecarFromItem(c, s.files, s.rows[id], readable), s.rows[id];
            sc.name == row.storeName && sc.origPath == row.origPath && sc.origMode == row.origMode
  {
    assert RowFits(c, s, id);
  }

  lemma StorePathsInStore(c: Config, name: string)
    ensures StoreDir(c) < Blob(c, name) && StoreDir(c) < SidecarPath(c, name)
  {
  }

  /** Restoring by sidecar or by row is the same. */
  lemma SidecarOrRow(c: Config, s: State, id: nat, f: RestoreFaults)
    requires Faithful(c) && Kept(c, s) && id in s.rows
    ensures RestoreReady(c, s.files, SidecarFromItem(c, s.files, s.rows[id], true))
    ensures RestoreReady(c, s.files, SidecarOfRow(s.rows[id]))
    ensures Restore(c, s.files, SidecarFromItem(c, s.files, s.rows[id], true), f) ==
            Restore(c, s.files, SidecarOfRow(s.rows[id]), f)
  {
    SidecarAgreesWithRow(c, s, id, true);
    RestoreIsReady(c, s, id, true);
    RestoreIsReady(c, s, id, false);
  }

  /** The precondition of Restore. */
  predicate RestoreReady(c: Config, fs: Files, sc: Sidecar) {
    && IsStoreName(sc.name)
    && sc.origPath != Blob(c, sc.name) && sc.origPath != SidecarPath(c, sc.name)
    && (Blob(c, sc.name) in fs ==> fs[Blob(c, sc.name)].File?)
  }

  lemma RestoreIsReady(c: Config, s: State, id: nat, readable: bool)
    requires Faithful(c) && Kept(c, s) && id in s.rows
    ensures RestoreReady(c, s.files, SidecarFromItem(c, s.files, s.rows[id], readable))
  {
    SidecarAgreesWithRow(c, s, id, readable);
    assert RowFits(c, s, id);
    StorePathsInStore(c, s.rows[id].storeName);
  }

  /** `AddQuarantine`: the new row is held. */
  function Recorded(s: State, files: Files, sc: Sidecar, data: string): State {
    State(files, s.rows[s.nextId := RowOf(sc)], s.nextId + 1, s.taken[sc.name := data])
  }

  /** `SetQuarantineStatus`. */
  function WithStatus(s: State, id: nat, status: Status, written: bool): State {
    if written && id in s.rows then s.(rows := s.rows[id := s.rows[id].(status := status)]) else s
  }

  function HoldStep(c: Config, s: State, a: Action): State
    requires a.HoldFile? && FreshIn(c, s.files, a.name)
  {
    if CheckTargetPath(a.path, c.configDir, c.browseRoot).Some? then s
    else
      var path := Segments(a.path);
      var h := Hold(c, s.files, path, a.signature, a.scanId, a.name, a.now, a.hold);
      if h.out.Err? then s.(files := h.files)
      else if a.recorded then Recorded(s, h.files, h.out.value, s.files[path].data)
      else
        HoldReady(c, s.files, path, a.signature, a.scanId, a.name, a.now, a.hold);
        s.(files := Restore(c, h.files, h.out.value, a.undo).files)
  }

  lemma HoldReady(c: Config, fs: Files, path: Path, signature: string, scanId: int, name: string, now: string, f: HoldFaults)
    requires FreshIn(c, fs, name)
    ensures var h := Hold(c, fs, path, signature, scanId, name, now, f);
            h.out.Ok? ==> RestoreReady(c, h.files, h.out.value)
  {
  }

  function RestoreStep(c: Config, s: State, a: Action): State
    requires a.RestoreItem?
    requires a.id in s.rows ==> RestoreReady(c, s.files, SidecarFromItem(c, s.files, s.rows[a.id], a.sidecarReadable))
  {
    if a.id !in s.rows || s.rows[a.id].status != Held then s
    else
      var r := Restore(c, s.files, SidecarFromItem(c, s.files, s.rows[a.id], a.sidecarReadable), a.faults);
      if r.out.Err? then s.(files := r.files)
      else WithStatus(s.(files := r.files), a.id, Status.Restored, a.statusWritten)
  }

  function DeleteStep(c: Config, s: State, a: Action): State
    requires a.DeleteItem?
    requires a.id in s.rows ==> && IsStoreName(s.rows[a.id].storeName)
                                && var blob := Blob(c, s.rows[a.id].storeName); blob in s.files ==> s.files[blob].File?
  {
    if a.id !in s.rows then s
    else if s.rows[a.id].status != Held then WithStatus(s, a.id, Deleted, a.statusWritten)
    else
      var r := Purge(c, s.files, s.rows[a.id].storeName, a.purge);
      if !r.ok then s.(files := r.files)
      else WithStatus(s.(files := r.files), a.id, Deleted, a.statusWritten)
  }

  /** The data directory is absolute: only then does the target guard protect the store. */
  ghost predicate Sound(c: Config) {
    Faithful(c) && IsAbs(c.configDir)
  }

  /** One handler, or one change from outside. */
  ghost function Apply(c: Config, s: State, a: Action): (t: State)
    requires Sound(c) && Kept(c, s) && Enabled(c, s, a)
    ensures Kept(c, t)
  {
    match a
    case HoldFile(_, _, _, _, _, _, _, _) =>
      HoldKept(c, s, a);
      HoldStep(c, s, a)
    case RestoreItem(id, readable, _, _) =>
      RestoreKept(c, s, a);
      RestoreStep(c, s, a)
    case DeleteItem(id, _, _) =>
      DeleteKept(c, s, a);
      DeleteStep(c, s, a)
    case Outside(files) =>
      FilesKept(c, s, files);
      s.(files := files)
  }

  /** Files may change as long as the store keeps to files and no row's sidecar is rewritten. */
  lemma FilesKept(c: Config, s: State, files: Files)
    requires Kept(c, s)
    requires forall p :: p in files && StoreDir(c) < p ==> files[p].File?
    requires forall id :: id in s.rows ==>
               var p := SidecarPath(c, s.rows[id].storeName); p in files ==> p in s.files && files[p] == s.files[p]
    ensures Kept(c, s.(files := files))
  {
    var t := s.(files := files);
    forall id | id in t.rows
      ensures RowFits(c, t, id)
    {
      assert RowFits(c, s, id);
    }
  }

  /** The target guard keeps quarantined files out of the store. */
  lemma TargetNotInStore(c: Config, path: string)
    requires IsAbs(c.configDir) && CheckTargetPath(path, c.configDir, c.browseRoot).None?
    ensures !InStore(c, Segments(path))
  {
    TargetsAvoidDataDirectory(path, c.configDir, c.browseRoot);
    assert Segments(c.configDir) <= StoreDir(c);
  }

  /** Files under the store other than one name's blob and sidecar are as before. */
  ghost predicate SameStoreBut(c: Config, before: Files, after: Files, name: string) {
    forall p :: StoreDir(c) < p && p != Blob(c, name) && p != SidecarPath(c, name) ==>
      (p in after <==> p in before) && (p in after ==> after[p] == before[p])
  }

  lemma RestIsSame(before: Files, after: Files, x: Path, y: Path, z: Path, p: Path)
    requires after - {x, y, z} == before - {x, y, z} && p != x && p != y && p != z
    ensures (p in after <==> p in before) && (p in after ==> after[p] == before[p])
  {
    assert p in after <==> p in after - {x, y, z};
    assert p in before <==> p in before - {x, y, z};
  }

  lemma HoldInStore(c: Config, fs: Files, path: Path, signature: string, scanId: int, name: string, now: string, f: HoldFaults)
    requires FreshIn(c, fs, name) && !InStore(c, path)
    ensures SameStoreBut(c, fs, Hold(c, fs, path, signature, scanId, name, now, f).files, name)
  {
    var files := Hold(c, fs, path, signature, scanId, name, now, f).files;
    var blob, side := Blob(c, name), SidecarPath(c, name);
    assert files - {path, blob, side} == fs - {path} == fs - {path, blob, side};
    forall p | StoreDir(c) < p && p != blob && p != side
      ensures (p in files <==> p in fs) && (p in files ==> files[p] == fs[p])
    {
      RestIsSame(fs, files, path, blob, side, p);
    }
  }

  lemma RestoreInStore(c: Config, fs: Files, sc: Sidecar, f: RestoreFaults)
    requires RestoreReady(c, fs, sc) && !InStore(c, sc.origPath)
    ensures SameStoreBut(c, fs, Restore(c, fs, sc, f).files, sc.name)
  {
    var files := Restore(c, fs, sc, f).files;
    forall p | StoreDir(c) < p && p != Blob(c, sc.name) && p != SidecarPath(c, sc.name)
      ensures (p in files <==> p in fs) && (p in files ==> files[p] == fs[p])
    {
      RestIsSame(fs, files, sc.origPath, Blob(c, sc.name), SidecarPath(c, sc.name), p);
    }
  }

  /** A name no row uses may come and go in the store. */
  lemma UnusedNameKept(c: Config, s: State, files: Files, name: string)
    requires Kept(c, s) && IsStoreName(name) && SameStoreBut(c, s.files, files, name)
    requires forall id :: id in s.rows ==> s.rows[id].storeName != name
    requires forall p :: p in files && (p == Blob(c, name) || p == SidecarPath(c, name)) ==> files[p].File?
    ensures Kept(c, s.(files := files))
  {
    forall id | id in s.rows
      ensures var p := SidecarPath(c, s.rows[id].storeName); p in files ==> p in s.files && files[p] == s.files[p]
    {
      assert RowFits(c, s, id);
      StorePathsDiffer(c, s.rows[id].storeName, name);
      StorePathsDiffer(c, name, s.rows[id].storeName);
      StorePathsInStore(c, s.rows[id].storeName);
    }
    FilesKept(c, s, files);
  }

  lemma RecordedKept(c: Config, s: State, files: Files, sc: Sidecar, data: string)
    requires Kept(c, s.(files := files)) && IsStoreName(sc.name) && !InStore(c, sc.origPath)
    requires forall id :: id in s.rows ==> s.rows[id].storeName != sc.name
    requires SidecarPath(c, sc.name) in files && files[SidecarPath(c, sc.name)] == File(c.marshal(sc), PRIVATE)
    ensures Kept(c, Recorded(s, files, sc, data))
  {
    var t := Recorded(s, files, sc, data);
    forall id | id in t.rows
      ensures RowFits(c, t, id)
    {
      if id in s.rows {
        assert RowFits(c, s.(files := files), id);
      }
    }
  }

  lemma HoldKept(c: Config, s: State, a: Action)
    requires Sound(c) && Kept(c, s) && Enabled(c, s, a) && a.HoldFile?
    ensures Kept(c, HoldStep(c, s, a))
  {
    if CheckTargetPath(a.path, c.configDir, c.browseRoot).None? {
      var path := Segments(a.path);
      TargetNotInStore(c, a.path);
      var h := Hold(c, s.files, path, a.signature, a.scanId, a.name, a.now, a.hold);
      HoldInStore(c, s.files, path, a.signature, a.scanId, a.name, a.now, a.hold);
      UnusedNameKept(c, s, h.files, a.name);
      if h.out.Ok? {
        if a.recorded {
          RecordedKept(c, s, h.files, h.out.value, s.files[path].data);
        } else {
          HoldReady(c, s.files, path, a.signature, a.scanId, a.name, a.now, a.hold);
          var r := Restore(c, h.files, h.out.value, a.undo);
          RestoreInStore(c, h.files, h.out.value, a.undo);
          RestoreLeavesFiles(c, h.files, h.out.value, a.undo);
          UnusedNameKept(c, s.(files := h.files), r.files, a.name);
        }
      }
    }
  }

  /** What a restore leaves of the blob and its sidecar is what was there. */
  lemma RestoreLeavesFiles(c: Config, fs: Files, sc: Sidecar, f: RestoreFaults)
    requires RestoreReady(c, fs, sc)
    ensures var files := Restore(c, fs, sc, f).files;
            forall p :: p in {Blob(c, sc.name), SidecarPath(c, sc.name)} && p in files ==> p in fs && files[p] == fs[p]
  {
    var r, blob, side := Restore(c, fs, sc, f), Blob(c, sc.name), SidecarPath(c, sc.name);
    StorePathsDiffer(c, sc.name, sc.name);
    if r.out.Err? {
      RestIsSame(fs, r.files, sc.origPath, sc.origPath, sc.origPath, blob);
      RestIsSame(fs, r.files, sc.origPath, sc.origPath, sc.origPath, side);
    } else if f.sidecar {
      RestIsSame(fs, r.files, sc.origPath, blob, blob, side);
    }
  }

  lemma StatusKept(c: Config, s: State, id: nat, status: Status, written: bool)
    requires Kept(c, s)
    ensures Kept(c, WithStatus(s, id, status, written))
  {
    var t := WithStatus(s, id, status, written);
    forall i | i in t.rows
      ensures RowFits(c, t, i)
    {
      assert RowFits(c, s, i);
    }
  }

  lemma RestoreKept(c: Config, s: State, a: Action)
    requires Sound(c) && Kept(c, s) && a.RestoreItem?
    ensures a.id in s.rows ==> RestoreReady(c, s.files, SidecarFromItem(c, s.files, s.rows[a.id], a.sidecarReadable))
    ensures Kept(c, RestoreStep(c, s, a))
  {
    if a.id in s.rows {
      var row := s.rows[a.id];
      RestoreIsReady(c, s, a.id, a.sidecarReadable);
      SidecarAgreesWithRow(c, s, a.id, a.sidecarReadable);
      assert RowFits(c, s, a.id);
      var sc := SidecarFromItem(c, s.files, row, a.sidecarReadable);
      var r := Restore(c, s.files, sc, a.faults);
      RestoreInStore(c, s.files, sc, a.faults);
      RestoreLeavesFiles(c, s.files, sc, a.faults);
      NameTouched(c, s, r.files, row.storeName);
      StatusKept(c, s.(files := r.files), a.id, Status.Restored, a.statusWritten);
    }
  }

  /** Blob and sidecar of a name may go, as long as what stays of the sidecar is unchanged. */
  lemma NameTouched(c: Config, s: State, files: Files, name: string)
    requires Kept(c, s) && IsStoreName(name) && SameStoreBut(c, s.files, files, name)
    requires Blob(c, name) in files ==> files[Blob(c, name)].File?
    requires SidecarPath(c, name) in files ==>
               SidecarPath(c, name) in s.files && files[SidecarPath(c, name)] == s.files[SidecarPath(c, name)]
    ensures Kept(c, s.(files := files))
  {
    StorePathsInStore(c, name);
    forall id | id in s.rows
      ensures var p := SidecarPath(c, s.rows[id].storeName); p in files ==> p in s.files && files[p] == s.files[p]
    {
      assert RowFits(c, s, id);
      StorePathsDiffer(c, s.rows[id].storeName, name);
      StorePathsDiffer(c, name, s.rows[id].storeName);
      StorePathsInStore(c, s.rows[id].storeName);
    }
    FilesKept(c, s, files);
  }

  lemma DeleteKept(c: Config, s: State, a: Action)
    requires Kept(c, s) && a.DeleteItem?
    ensures a.id in s.rows ==> && IsStoreName(s.rows[a.id].storeName)
                               && var blob := Blob(c, s.rows[a.id].storeName); blob in s.files ==> s.files[blob].File?
    ensures Kept(c, DeleteStep(c, s, a))
  {
    if a.id in s.rows {
      var name := s.rows[a.id].storeName;
      assert RowFits(c, s, a.id);
      StorePathsInStore(c, name);
      PurgeInStore(c, s.files, name, a.purge);
      var r := Purge(c, s.files, name, a.purge);
      NameTouched(c, s, r.files, name);
      StatusKept(c, s.(files := r.files), a.id, Deleted, a.statusWritten);
      StatusKept(c, s, a.id, Deleted, a.statusWritten);
    }
  }

  lemma PurgeInStore(c: Config, fs: Files, name: string, f: PurgeFaults)
    requires IsStoreName(name) && (Blob(c, name) in fs ==> fs[Blob(c, name)].File?)
    ensures var files := Purge(c, fs, name, f).files;
            && SameStoreBut(c, fs, files, name)
            && (Blob(c, name) in files ==> files[Blob(c, name)].File?)
            && (SidecarPath(c, name) in files ==>
                  SidecarPath(c, name) in fs && files[SidecarPath(c, name)] == fs[SidecarPath(c, name)])
  {
    StorePathsDiffer(c, name, name);
  }

  // ------------------------------------------------------------------- runs

  /** Can every action of a run happen when its turn comes? */
  ghost predicate CanRun(c: Config, s: State, actions: seq<Action>)
    requires Sound(c) && Kept(c, s)
    decreases |actions|
  {
    actions == [] || (Enabled(c, s, actions[0]) && CanRun(c, Apply(c, s, actions[0]), actions[1..]))
  }

  ghost function Run(c: Config, s: State, actions: seq<Action>): (t: State)
    requires Sound(c) && Kept(c, s) && CanRun(c, s, actions)
    ensures Kept(c, t)
    decreases |actions|
  {
    if actions == [] then s else Run(c, Apply(c, s, actions[0]), actions[1..])
  }

  /** Which status may come after which: nothing returns to held. */
  predicate CanFollow(before: Status, after: Status) {
    after == before || before == Held || after == Deleted
  }

  /** Rows are never lost, and of a row only its status changes, never back to held. */
  ghost predicate Advances(s: State, t: State) {
    && (forall id :: id in s.rows ==> id in t.rows && t.rows[id] == s.rows[id].(status := t.rows[id].status)
                                      && CanFollow(s.rows[id].status, t.rows[id].status))
    && (forall name :: name in s.taken ==> name in t.taken && t.taken[name] == s.taken[name])
  }

  lemma RecordedAdvances(s: State, files: Files, sc: Sidecar, data: string)
    requires s.nextId !in s.rows && sc.name !in s.taken
    ensures Advances(s, Recorded(s, files, sc, data))
  {
  }

  lemma StatusAdvances(s: State, files: Files, id: nat, status: Status, written: bool)
    requires id in s.rows ==> CanFollow(s.rows[id].status, status)
    ensures Advances(s, WithStatus(s.(files := files), id, status, written))
  {
  }

  lemma HoldAdvances(c: Config, s: State, a: Action)
    requires Kept(c, s) && Enabled(c, s, a) && a.HoldFile?
    ensures Advances(s, HoldStep(c, s, a))
  {
    assert s.nextId in s.rows ==> RowFits(c, s, s.nextId);
    if CheckTargetPath(a.path, c.configDir, c.browseRoot).None? {
      var path := Segments(a.path);
      var h := Hold(c, s.files, path, a.signature, a.scanId, a.name, a.now, a.hold);
      if h.out.Ok? && a.recorded {
        RecordedAdvances(s, h.files, h.out.value, s.files[path].data);
      }
    }
  }

  lemma RestoreAdvances(c: Config, s: State, a: Action)
    requires Sound(c) && Kept(c, s) && a.RestoreItem?
    ensures a.id in s.rows ==> RestoreReady(c, s.files, SidecarFromItem(c, s.files, s.rows[a.id], a.sidecarReadable))
    ensures Advances(s, RestoreStep(c, s, a))
  {
    if a.id in s.rows {
      RestoreIsReady(c, s, a.id, a.sidecarReadable);
      if s.rows[a.id].status == Held {
        var r := Restore(c, s.files, SidecarFromItem(c, s.files, s.rows[a.id], a.sidecarReadable), a.faults);
        StatusAdvances(s, r.files, a.id, Status.Restored, a.statusWritten);
      }
    }
  }

  lemma StepAdvances(c: Config, s: State, a: Action)
    requires Sound(c) && Kept(c, s) && Enabled(c, s, a)
    ensures Advances(s, Apply(c, s, a))
  {
    match a
    case HoldFile(_, _, _, _, _, _, _, _) => HoldAdvances(c, s, a);
    case RestoreItem(_, _, _, _) => RestoreAdvances(c, s, a);
    case DeleteItem(id, purge, written) =>
      DeleteKept(c, s, a);
      if id in s.rows {
        StatusAdvances(s, s.files, id, Deleted, written);
        StatusAdvances(s, Purge(c, s.files, s.rows[id].storeName, purge).files, id, Deleted, written);
      }
    case Outside(_) =>
  }

  /** Whatever fails in a run, no row returns to held and what was taken stays on record. */
  lemma {:induction false} RowsNeverReturnToHeld(c: Config, s: State, actions: seq<Action>)
    requires Sound(c) && Kept(c, s) && CanRun(c, s, actions)
    ensures Advances(s, Run(c, s, actions))
    decreases |actions|
  {
    if actions != [] {
      StepAdvances(c, s, actions[0]);
      RowsNeverReturnToHeld(c, Apply(c, s, actions[0]), actions[1..]);
    }
  }

  // --------------------------------------------- the store agrees with the table

  ghost predicate HeldAs(s: State, id: nat, name: string) {
    id in s.rows && s.rows[id].status == Held && s.rows[id].storeName == name
  }

  /** A held row has its blob, with the bytes that were taken. */
  predicate BlobIntact(c: Config, s: State, id: nat)
    requires id in s.rows
  {
    var name := s.rows[id].storeName;
    s.rows[id].status == Held ==>
      IsFile(s.files, Blob(c, name)) && name in s.taken && s.files[Blob(c, name)].data == s.taken[name]
  }

  ghost predicate Exact(c: Config, s: State) {
    && (forall id :: id in s.rows ==> BlobIntact(c, s, id))
    && (forall name :: IsStoreName(name) && Blob(c, name) in s.files ==> exists id :: HeldAs(s, id, name))
  }

  /** The names of the blobs in the store. */
  function BlobNames(c: Config, fs: Files): set<string> {
    set p | p in fs && |p| == |StoreDir(c)| + 1 && StoreDir(c) < p && IsStoreName(p[|StoreDir(c)|]) :: p[|StoreDir(c)|]
  }

  function HeldNames(rows: map<nat, Row>): set<string> {
    set id | id in rows && rows[id].status == Held :: rows[id].storeName
  }

  lemma ExactMeansSameNames(c: Config, s: State)
    requires Kept(c, s) && Exact(c, s)
    ensures BlobNames(c, s.files) == HeldNames(s.rows)
  {
    forall name | name in BlobNames(c, s.files)
      ensures name in HeldNames(s.rows)
    {
      var p :| p in s.files && |p| == |StoreDir(c)| + 1 && StoreDir(c) < p && p[|StoreDir(c)|] == name && IsStoreName(name);
      assert p == Blob(c, name);
      var id :| HeldAs(s, id, name);
    }
    forall name | name in HeldNames(s.rows)
      ensures name in BlobNames(c, s.files)
    {
      var id :| id in s.rows && HeldAs(s, id, name);
      assert RowFits(c, s, id) && BlobIntact(c, s, id);
      StorePathsInStore(c, name);
      assert Blob(c, name)[|StoreDir(c)|] == name;
    }
  }

  /** Does the interrupted overwrite of a blob leave its bytes as they were? */
  predicate Harmless(data: string, zeroed: Option<nat>) {
    forall i :: 0 <= i < |data| && (zeroed.None? || i < zeroed.value) ==> data[i] == '\0'
  }

  predicate HoldReliable(c: Config, s: State, a: Action)
    requires a.HoldFile?
  {
    var path := Segments(a.path);
    CheckTargetPath(a.path, c.configDir, c.browseRoot).None? && Looks(s.files, path, a.hold) && !a.hold.random ==>
      if Moves(s.files, path, Blob(c, a.name), a.hold.move) then a.hold.sidecar.Fine? && (a.recorded || Returns(s.files, path, a.undo))
      else !LeavesCopy(s.files, path, Blob(c, a.name), a.hold.move)
  }

  /** What happens to the item of a held row, seen from the files and failures of one step. */
  predicate HeldReliable(c: Config, s: State, a: Action, row: Row) {
    match a
    case RestoreItem(_, _, faults, statusWritten) =>
      PutsBack(s.files, Blob(c, row.storeName), row.origPath, faults) ==> statusWritten
    case DeleteItem(_, purge, statusWritten) =>
      if purge.remove
      then purge.stat || purge.open || (IsFile(s.files, Blob(c, row.storeName)) && Harmless(s.files[Blob(c, row.storeName)].data, purge.zeroed))
      else statusWritten
    case _ => true
  }

  /**
   The steps after which the store still agrees with the table, told by their failures and the
   files before them. Of a hold that moves the file, the sidecar must be written and the insert
   must succeed or the file be put back; one that fails to move it must leave no copy. A restore
   that puts the file back and a delete that removes the blob must record that, and a delete that
   fails to remove the blob must not have changed it.
   */
  predicate Reliable(c: Config, s: State, a: Action) {
    match a
    case HoldFile(_, _, _, _, _, _, _, _) => HoldReliable(c, s, a)
    case RestoreItem(id, _, _, _) => id in s.rows && s.rows[id].status == Held ==> HeldReliable(c, s, a, s.rows[id])
    case DeleteItem(id, _, _) => id in s.rows && s.rows[id].status == Held ==> HeldReliable(c, s, a, s.rows[id])
    case Outside(_) => true
  }

  /** Files other than one unused name's blob change nothing about the agreement. */
  lemma ExactElsewhere(c: Config, s: State, files: Files, name: string)
    requires Kept(c, s) && Exact(c, s) && IsStoreName(name) && SameStoreBut(c, s.files, files, name)
    requires forall id :: id in s.rows ==> s.rows[id].storeName != name
    requires Blob(c, name) !in files
    ensures Exact(c, s.(files := files))
  {
    var t := s.(files := files);
    forall id | id in t.rows
      ensures BlobIntact(c, t, id)
    {
      BlobElsewhere(c, s, files, name, s.rows[id].storeName, id);
    }
    forall other | IsStoreName(other) && Blob(c, other) in files
      ensures exists id :: HeldAs(t, id, other)
    {
      StorePathsDiffer(c, other, name);
      StorePathsInStore(c, other);
      var id :| HeldAs(s, id, other);
      assert HeldAs(t, id, other);
    }
  }

  lemma BlobElsewhere(c: Config, s: State, files: Files, name: string, other: string, id: nat)
    requires Kept(c, s) && id in s.rows && s.rows[id].storeName == other && other != name && IsStoreName(name)
    requires SameStoreBut(c, s.files, files, name)
    ensures Blob(c, other) in files <==> Blob(c, other) in s.files
    ensures Blob(c, other) in files ==> files[Blob(c, other)] == s.files[Blob(c, other)]
  {
    assert RowFits(c, s, id);
    StorePathsDiffer(c, other, name);
    StorePathsInStore(c, other);
  }

  /** Recording a held file adds its name to both sides. */
  lemma ExactRecorded(c: Config, s: State, files: Files, sc: Sidecar, data: string)
    requires Kept(c, s) && Exact(c, s) && IsStoreName(sc.name) && SameStoreBut(c, s.files, files, sc.name)
    requires sc.name !in s.taken && forall id :: id in s.rows ==> s.rows[id].storeName != sc.name
    requires IsFile(files, Blob(c, sc.name)) && files[Blob(c, sc.name)].data == data
    ensures Exact(c, Recorded(s, files, sc, data))
  {
    var t := Recorded(s, files, sc, data);
    assert s.nextId in s.rows ==> RowFits(c, s, s.nextId);
    forall id | id in t.rows
      ensures BlobIntact(c, t, id)
    {
      if id in s.rows {
        BlobElsewhere(c, s, files, sc.name, s.rows[id].storeName, id);
        assert BlobIntact(c, s, id);
      }
    }
    forall other | IsStoreName(other) && Blob(c, other) in files
      ensures exists id :: HeldAs(t, id, other)
    {
      if other == sc.name {
        assert HeldAs(t, s.nextId, other);
      } else {
        StorePathsDiffer(c, other, sc.name);
        StorePathsInStore(c, other);
        var id :| HeldAs(s, id, other);
        assert HeldAs(t, id, other);
      }
    }
  }

  /** A blob under a name no row uses is an orphan. */
  lemma OrphanNotExact(c: Config, s: State, name: string)
    requires IsStoreName(name) && Blob(c, name) in s.files
    requires forall id :: id in s.rows ==> s.rows[id].storeName != name
    ensures !Exact(c, s)
  {
  }

  lemma HoldExact(c: Config, s: State, a: Action)
    requires Sound(c) && Kept(c, s) && Exact(c, s) && Enabled(c, s, a) && a.HoldFile?
    ensures Exact(c, HoldStep(c, s, a)) <==> HoldReliable(c, s, a)
  {
    if CheckTargetPath(a.path, c.configDir, c.browseRoot).None? {
      var path := Segments(a.path);
      TargetNotInStore(c, a.path);
      HoldSucceedsExactly(c, s.files, path, a.signature, a.scanId, a.name, a.now, a.hold);
      var h := Hold(c, s.files, path, a.signature, a.scanId, a.name, a.now, a.hold);
      HoldInStore(c, s.files, path, a.signature, a.scanId, a.name, a.now, a.hold);
      if h.out.Err? {
        FailedHoldExact(c, s, h.files, a.name);
      } else if a.recorded {
        ExactRecorded(c, s, h.files, h.out.value, s.files[path].data);
      } else {
        UndoneHoldExact(c, s, a);
      }
    }
  }

  /** A hold that adds no row keeps the agreement exactly when it leaves no blob. */
  lemma FailedHoldExact(c: Config, s: State, files: Files, name: string)
    requires Kept(c, s) && Exact(c, s) && IsStoreName(name) && SameStoreBut(c, s.files, files, name)
    requires forall id :: id in s.rows ==> s.rows[id].storeName != name
    ensures Exact(c, s.(files := files)) <==> Blob(c, name) !in files
  {
    if Blob(c, name) in files {
      OrphanNotExact(c, s.(files := files), name);
    } else {
      ExactElsewhere(c, s, files, name);
    }
  }

  /** A failed insert keeps the agreement exactly when the file can be put straight back. */
  lemma UndoneHoldExact(c: Config, s: State, a: Action)
    requires Sound(c) && Kept(c, s) && Exact(c, s) && Enabled(c, s, a) && a.HoldFile? && !a.recorded
    requires CheckTargetPath(a.path, c.configDir, c.browseRoot).None?
    requires Hold(c, s.files, Segments(a.path), a.signature, a.scanId, a.name, a.now, a.hold).out.Ok?
    ensures Exact(c, HoldStep(c, s, a)) <==> Returns(s.files, Segments(a.path), a.undo)
  {
    var path := Segments(a.path);
    TargetNotInStore(c, a.path);
    var h := Hold(c, s.files, path, a.signature, a.scanId, a.name, a.now, a.hold);
    HoldInStore(c, s.files, path, a.signature, a.scanId, a.name, a.now, a.hold);
    HoldReady(c, s.files, path, a.signature, a.scanId, a.name, a.now, a.hold);
    RestoreInStore(c, h.files, h.out.value, a.undo);
    RestoreSucceedsExactly(c, h.files, h.out.value, a.undo);
    UndoSucceedsExactly(c, s.files, path, a.signature, a.scanId, a.name, a.now, a.hold, a.undo);
    var r := Restore(c, h.files, h.out.value, a.undo);
    SameStoreTwice(c, s.files, h.files, r.files, a.name);
    FailedHoldExact(c, s, r.files, a.name);
  }

  lemma SameStoreTwice(c: Config, f0: Files, f1: Files, f2: Files, name: string)
    requires SameStoreBut(c, f0, f1, name) && SameStoreBut(c, f1, f2, name)
    ensures SameStoreBut(c, f0, f2, name)
  {
  }

  /** When only the insert fails, the file is put back: everything is as before, mode 0 aside. */
  lemma CompensationSucceeds(c: Config, s: State, a: Action)
    requires Sound(c) && Kept(c, s) && Enabled(c, s, a) && a.HoldFile? && !a.recorded
    requires CheckTargetPath(a.path, c.configDir, c.browseRoot).None?
    requires Hold(c, s.files, Segments(a.path), a.signature, a.scanId, a.name, a.now, a.hold).out.Ok?
    requires SmoothRestore(a.undo) && IsDir(s.files, Parent(Segments(a.path)))
    ensures var path := Segments(a.path);
            var h := Hold(c, s.files, path, a.signature, a.scanId, a.name, a.now, a.hold);
            && RestoreReady(c, h.files, h.out.value)
            && Restore(c, h.files, h.out.value, a.undo).out.Ok?
            && HoldStep(c, s, a) ==
               s.(files := s.files[path := File(s.files[path].data,
                                                if s.files[path].mode == 0 then DEFAULT_MODE else s.files[path].mode)])
  {
    var path := Segments(a.path);
    var h := Hold(c, s.files, path, a.signature, a.scanId, a.name, a.now, a.hold);
    var blob, side := Blob(c, a.name), SidecarPath(c, a.name);
    HoldReady(c, s.files, path, a.signature, a.scanId, a.name, a.now, a.hold);
    var parent := Parent(path);
    assert parent != path;
    assert s.files - {path, blob, side} == s.files - {path};
    RestIsSame(s.files, h.files, path, blob, side, parent);
    SmoothRestoreSucceeds(c, h.files, h.out.value, a.undo);
    HoldThenRestoreKeepsBytes(c, s.files, path, a.signature, a.scanId, a.name, a.now, a.hold, a.undo);
    var r := Restore(c, h.files, h.out.value, a.undo);
    assert r.files - {path} == r.files - {path, side};
    MapFromRest(s.files, r.files, path);
  }

  /** A row whose blob left the store is no longer held. */
  lemma ExactReleased(c: Config, s: State, files: Files, id: nat, status: Status)
    requires Kept(c, s) && Exact(c, s) && id in s.rows && status != Held
    requires SameStoreBut(c, s.files, files, s.rows[id].storeName) && Blob(c, s.rows[id].storeName) !in files
    ensures Exact(c, WithStatus(s.(files := files), id, status, true))
  {
    var t, name := WithStatus(s.(files := files), id, status, true), s.rows[id].storeName;
    assert RowFits(c, s, id);
    forall i | i in t.rows
      ensures BlobIntact(c, t, i)
    {
      if i != id {
        BlobElsewhere(c, s, files, name, s.rows[i].storeName, i);
        assert BlobIntact(c, s, i);
      }
    }
    forall other | IsStoreName(other) && Blob(c, other) in files
      ensures exists i :: HeldAs(t, i, other)
    {
      StorePathsDiffer(c, other, name);
      StorePathsInStore(c, other);
      var i :| HeldAs(s, i, other);
      assert HeldAs(t, i, other);
    }
  }

  /** Files away from the store may change freely. */
  lemma ExactOutside(c: Config, s: State, files: Files)
    requires Kept(c, s) && Exact(c, s)
    requires forall p :: StoreDir(c) < p ==> (p in files <==> p in s.files) && (p in files ==> files[p] == s.files[p])
    ensures Exact(c, s.(files := files))
  {
    var t := s.(files := files);
    forall id | id in t.rows
      ensures BlobIntact(c, t, id)
    {
      StorePathsInStore(c, s.rows[id].storeName);
      assert BlobIntact(c, s, id);
    }
    forall name | IsStoreName(name) && Blob(c, name) in files
      ensures exists id :: HeldAs(t, id, name)
    {
      StorePathsInStore(c, name);
      var id :| HeldAs(s, id, name);
      assert HeldAs(t, id, name);
    }
  }

  lemma FailedRestoreOutside(c: Config, fs: Files, sc: Sidecar, f: RestoreFaults)
    requires RestoreReady(c, fs, sc) && !InStore(c, sc.origPath) && Restore(c, fs, sc, f).out.Err?
    ensures var files := Restore(c, fs, sc, f).files;
            forall p :: StoreDir(c) < p ==> (p in files <==> p in fs) && (p in files ==> files[p] == fs[p])
  {
    var files := Restore(c, fs, sc, f).files;
    forall p | StoreDir(c) < p
      ensures (p in files <==> p in fs) && (p in files ==> files[p] == fs[p])
    {
      RestIsSame(fs, files, sc.origPath, sc.origPath, sc.origPath, p);
    }
  }

  /** A held row without its blob is not what the table says. */
  lemma EmptyRowNotExact(c: Config, s: State, id: nat)
    requires id in s.rows && s.rows[id].status == Held && Blob(c, s.rows[id].storeName) !in s.files
    ensures !Exact(c, s)
  {
    assert !BlobIntact(c, s, id);
  }

  lemma RestoreExact(c: Config, s: State, a: Action)
    requires Sound(c) && Kept(c, s) && Exact(c, s) && a.RestoreItem?
    ensures a.id in s.rows ==> RestoreReady(c, s.files, SidecarFromItem(c, s.files, s.rows[a.id], a.sidecarReadable))
    ensures Exact(c, RestoreStep(c, s, a)) <==> Reliable(c, s, a)
  {
    if a.id in s.rows {
      RestoreIsReady(c, s, a.id, a.sidecarReadable);
      if s.rows[a.id].status == Held {
        SidecarAgreesWithRow(c, s, a.id, a.sidecarReadable);
        assert RowFits(c, s, a.id);
        var sc := SidecarFromItem(c, s.files, s.rows[a.id], a.sidecarReadable);
        var r := Restore(c, s.files, sc, a.faults);
        RestoreSucceedsExactly(c, s.files, sc, a.faults);
        if r.out.Err? {
          FailedRestoreOutside(c, s.files, sc, a.faults);
          ExactOutside(c, s, r.files);
        } else if a.statusWritten {
          RestoreInStore(c, s.files, sc, a.faults);
          ExactReleased(c, s, r.files, a.id, Status.Restored);
        } else {
          EmptyRowNotExact(c, s.(files := r.files), a.id);
        }
      }
    }
  }

  lemma HarmlessExactly(data: string, zeroed: Option<nat>)
    ensures Overwritten(data, zeroed) == data <==> Harmless(data, zeroed)
  {
    var wiped := Overwritten(data, zeroed);
    if wiped == data {
      assert forall i :: 0 <= i < |data| && (zeroed.None? || i < zeroed.value) ==> data[i] == wiped[i];
    }
  }

  /** A delete that cannot remove the blob keeps the agreement exactly when it left its bytes alone. */
  lemma FailedDeleteExact(c: Config, s: State, id: nat, f: PurgeFaults)
    requires Kept(c, s) && Exact(c, s) && id in s.rows && s.rows[id].status == Held && f.remove
    ensures IsStoreName(s.rows[id].storeName) && IsFile(s.files, Blob(c, s.rows[id].storeName))
    ensures var blob := Blob(c, s.rows[id].storeName);
            Exact(c, s.(files := Purge(c, s.files, s.rows[id].storeName, f).files)) <==>
              f.stat || f.open || Harmless(s.files[blob].data, f.zeroed)
  {
    var name := s.rows[id].storeName;
    assert RowFits(c, s, id) && BlobIntact(c, s, id);
    var blob, files := Blob(c, name), Purge(c, s.files, name, f).files;
    HarmlessExactly(s.files[blob].data, f.zeroed);
    if f.stat || f.open || Harmless(s.files[blob].data, f.zeroed) {
      assert s.files[blob := s.files[blob]] == s.files;
      assert s.(files := files) == s;
    } else {
      assert !BlobIntact(c, s.(files := files), id);
    }
  }

  lemma DeleteExact(c: Config, s: State, a: Action)
    requires Kept(c, s) && Exact(c, s) && a.DeleteItem?
    ensures a.id in s.rows ==> && IsStoreName(s.rows[a.id].storeName)
                               && var blob := Blob(c, s.rows[a.id].storeName); blob in s.files ==> s.files[blob].File?
    ensures Exact(c, DeleteStep(c, s, a)) <==> Reliable(c, s, a)
  {
    DeleteKept(c, s, a);
    if a.id in s.rows {
      var name := s.rows[a.id].storeName;
      assert BlobIntact(c, s, a.id);
      if s.rows[a.id].status != Held {
        ExactSettled(c, s, a.id, Deleted);
      } else if a.purge.remove {
        FailedDeleteExact(c, s, a.id, a.purge);
      } else {
        var r := Purge(c, s.files, name, a.purge);
        PurgeInStore(c, s.files, name, a.purge);
        if a.statusWritten {
          ExactReleased(c, s, r.files, a.id, Deleted);
        } else {
          EmptyRowNotExact(c, s.(files := r.files), a.id);
        }
      }
    }
  }

  lemma ExactSettled(c: Config, s: State, id: nat, status: Status)
    requires Exact(c, s) && id in s.rows && s.rows[id].status != Held && status != Held
    ensures Exact(c, WithStatus(s, id, status, true))
  {
    var t := WithStatus(s, id, status, true);
    forall i | i in t.rows
      ensures BlobIntact(c, t, i)
    {
      assert BlobIntact(c, s, i);
    }
    forall name | IsStoreName(name) && Blob(c, name) in t.files
      ensures exists i :: HeldAs(t, i, name)
    {
      var i :| HeldAs(s, i, name);
      assert HeldAs(t, i, name);
    }
  }

  /** A step keeps the store in agreement with the table exactly when it is reliable. */
  lemma StepExact(c: Config, s: State, a: Action)
    requires Sound(c) && Kept(c, s) && Exact(c, s) && Enabled(c, s, a)
    ensures Exact(c, Apply(c, s, a)) <==> Reliable(c, s, a)
  {
    match a
    case HoldFile(_, _, _, _, _, _, _, _) => HoldExact(c, s, a);
    case RestoreItem(_, _, _, _) => RestoreExact(c, s, a);
    case DeleteItem(_, _, _) => DeleteExact(c, s, a);
    case Outside(files) => ExactOutside(c, s, files);
  }

  /** Every action of the run is reliable when its turn comes. */
  ghost predicate AllReliable(c: Config, s: State, actions: seq<Action>)
    requires Sound(c) && Kept(c, s) && CanRun(c, s, actions)
    decreases |actions|
  {
    actions == [] || (Reliable(c, s, actions[0]) && AllReliable(c, Apply(c, s, actions[0]), actions[1..]))
  }

  /** The store agrees with the table in every state of the run. */
  ghost predicate ExactThroughout(c: Config, s: State, actions: seq<Action>)
    requires Sound(c) && Kept(c, s) && CanRun(c, s, actions)
    decreases |actions|
  {
    Exact(c, s) && (actions == [] || ExactThroughout(c, Apply(c, s, actions[0]), actions[1..]))
  }

  lemma {:induction false} ThroughoutExactly(c: Config, s: State, actions: seq<Action>)
    requires Sound(c) && Kept(c, s) && Exact(c, s) && CanRun(c, s, actions)
    ensures ExactThroughout(c, s, actions) <==> AllReliable(c, s, actions)
    decreases |actions|
  {
    if actions != [] {
      var next := Apply(c, s, actions[0]);
      StepExact(c, s, actions[0]);
      if Exact(c, next) {
        ThroughoutExactly(c, next, actions[1..]);
      } else {
        assert !ExactThroughout(c, next, actions[1..]);
      }
    }
  }

  lemma {:induction false} ExactAtTheEnd(c: Config, s: State, actions: seq<Action>)
    requires Sound(c) && Kept(c, s) && CanRun(c, s, actions) && ExactThroughout(c, s, actions)
    ensures Exact(c, Run(c, s, actions))
    decreases |actions|
  {
    if actions != [] {
      ExactAtTheEnd(c, Apply(c, s, actions[0]), actions[1..]);
    }
  }

  /**
   The store agrees with the table throughout a run exactly when every step is reliable, and then
   the blobs in the store are exactly the names of the held rows.
   */
  lemma StoreMatchesTable(c: Config, s: State, actions: seq<Action>)
    requires Sound(c) && Kept(c, s) && Exact(c, s) && CanRun(c, s, actions)
    ensures ExactThroughout(c, s, actions) <==> AllReliable(c, s, actions)
    ensures var t := Run(c, s, actions);
            AllReliable(c, s, actions) ==> Exact(c, t) && BlobNames(c, t.files) == HeldNames(t.rows)
  {
    ThroughoutExactly(c, s, actions);
    if AllReliable(c, s, actions) {
      ExactAtTheEnd(c, s, actions);
      ExactMeansSameNames(c, Run(c, s, actions));
    }
  }

  /** An empty store with an empty table satisfies everything the theorems start from. */
  lemma EmptyStoreIsExact(c: Config, files: Files)
    requires forall p :: p in files ==> !(StoreDir(c) < p)
    ensures Kept(c, State(files, map[], 0, map[])) && Exact(c, State(files, map[], 0, map[]))
  {
    forall name | Blob(c, name) in files
      ensures false
    {
      StorePathsInStore(c, name);
    }
  }

  /** The row a successful hold adds, and the bytes it takes. */
  lemma HoldRecords(c: Config, s: State, a: Action)
    requires Sound(c) && Kept(c, s) && Enabled(c, s, a) && a.HoldFile?
    requires s.nextId in Apply(c, s, a).rows
    ensures var t, path := Apply(c, s, a), Segments(a.path);
            && IsFile(s.files, path) && a.name in t.taken && t.taken[a.name] == s.files[path].data
            && t.rows[s.nextId].storeName == a.name && t.rows[s.nextId].origPath == path
  {
    assert s.nextId in s.rows ==> RowFits(c, s, s.nextId);
  }

  // ------------------------------------------------ what was taken comes back

  /** The blob of a row, while it is there, has the bytes that were taken. */
  predicate BytesKept(c: Config, s: State, id: nat) {
    id in s.rows && var name := s.rows[id].storeName;
      name in s.taken && (Blob(c, name) in s.files ==> IsFile(s.files, Blob(c, name)) && s.files[Blob(c, name)].data == s.taken[name])
  }

  /** A delete of a held item that overwrites the blob and then fails to remove it. */
  predicate Wipes(c: Config, s: State, a: Action, id: nat) {
    && a.DeleteItem? && a.id == id && id in s.rows && s.rows[id].status == Held
    && a.purge.remove && !a.purge.stat && !a.purge.open
    && IsFile(s.files, Blob(c, s.rows[id].storeName)) && !Harmless(s.files[Blob(c, s.rows[id].storeName)].data, a.purge.zeroed)
  }

  lemma BytesElsewhere(c: Config, s: State, t: State, id: nat, name: string)
    requires Kept(c, s) && BytesKept(c, s, id) && Advances(s, t) && IsStoreName(name)
    requires SameStoreBut(c, s.files, t.files, name) && name != s.rows[id].storeName
    ensures BytesKept(c, t, id)
  {
    BlobElsewhere(c, s, t.files, name, s.rows[id].storeName, id);
  }

  lemma HoldKeepsBytes(c: Config, s: State, a: Action, id: nat)
    requires Sound(c) && Kept(c, s) && Enabled(c, s, a) && a.HoldFile? && BytesKept(c, s, id)
    ensures BytesKept(c, HoldStep(c, s, a), id)
  {
    HoldAdvances(c, s, a);
    if CheckTargetPath(a.path, c.configDir, c.browseRoot).None? {
      var path := Segments(a.path);
      TargetNotInStore(c, a.path);
      var h := Hold(c, s.files, path, a.signature, a.scanId, a.name, a.now, a.hold);
      HoldInStore(c, s.files, path, a.signature, a.scanId, a.name, a.now, a.hold);
      if h.out.Ok? && !a.recorded {
        HoldReady(c, s.files, path, a.signature, a.scanId, a.name, a.now, a.hold);
        RestoreInStore(c, h.files, h.out.value, a.undo);
        SameStoreTwice(c, s.files, h.files, Restore(c, h.files, h.out.value, a.undo).files, a.name);
      }
      BytesElsewhere(c, s, HoldStep(c, s, a), id, a.name);
    }
  }

  lemma RestoreKeepsBytes(c: Config, s: State, a: Action, id: nat)
    requires Sound(c) && Kept(c, s) && a.RestoreItem? && BytesKept(c, s, id)
    ensures a.id in s.rows ==> RestoreReady(c, s.files, SidecarFromItem(c, s.files, s.rows[a.id], a.sidecarReadable))
    ensures BytesKept(c, RestoreStep(c, s, a), id)
  {
    RestoreAdvances(c, s, a);
    if a.id in s.rows && s.rows[a.id].status == Held {
      SidecarAgreesWithRow(c, s, a.id, a.sidecarReadable);
      assert RowFits(c, s, a.id);
      var sc := SidecarFromItem(c, s.files, s.rows[a.id], a.sidecarReadable);
      RestoreInStore(c, s.files, sc, a.faults);
      RestoreLeavesFiles(c, s.files, sc, a.faults);
      if a.id != id {
        BytesElsewhere(c, s, RestoreStep(c, s, a), id, sc.name);
      }
    }
  }

  lemma DeleteKeepsBytes(c: Config, s: State, a: Action, id: nat)
    requires Sound(c) && Kept(c, s) && Enabled(c, s, a) && a.DeleteItem? && BytesKept(c, s, id) && !Wipes(c, s, a, id)
    ensures BytesKept(c, Apply(c, s, a), id)
  {
    DeleteKept(c, s, a);
    StepAdvances(c, s, a);
    if a.id in s.rows && s.rows[a.id].status == Held {
      var name := s.rows[a.id].storeName;
      PurgeInStore(c, s.files, name, a.purge);
      if a.id != id {
        BytesElsewhere(c, s, Apply(c, s, a), id, name);
      } else if Blob(c, name) in s.files {
        HarmlessExactly(s.files[Blob(c, name)].data, a.purge.zeroed);
      }
    }
  }

  lemma StepKeepsBytes(c: Config, s: State, a: Action, id: nat)
    requires Sound(c) && Kept(c, s) && Enabled(c, s, a) && BytesKept(c, s, id) && !Wipes(c, s, a, id)
    ensures BytesKept(c, Apply(c, s, a), id)
  {
    match a
    case HoldFile(_, _, _, _, _, _, _, _) => HoldKeepsBytes(c, s, a, id);
    case RestoreItem(_, _, _, _) => RestoreKeepsBytes(c, s, a, id);
    case DeleteItem(_, _, _) => DeleteKeepsBytes(c, s, a, id);
    case Outside(files) => StorePathsInStore(c, s.rows[id].storeName);
  }

  /** No delete in the run overwrites the blob of this item and then fails to remove it. */
  ghost predicate NeverWipes(c: Config, s: State, actions: seq<Action>, id: nat)
    requires Sound(c) && Kept(c, s) && CanRun(c, s, actions)
    decreases |actions|
  {
    actions == [] || (!Wipes(c, s, actions[0], id) && NeverWipes(c, Apply(c, s, actions[0]), actions[1..], id))
  }

  lemma {:induction false} RunKeepsBytes(c: Config, s: State, actions: seq<Action>, id: nat)
    requires Sound(c) && Kept(c, s) && CanRun(c, s, actions) && BytesKept(c, s, id) && NeverWipes(c, s, actions, id)
    ensures BytesKept(c, Run(c, s, actions), id)
    decreases |actions|
  {
    if actions != [] {
      StepKeepsBytes(c, s, actions[0], id);
      RunKeepsBytes(c, Apply(c, s, actions[0]), actions[1..], id);
    }
  }

  /** A restore that ends in status restored has put the taken bytes back. */
  lemma RestoreDelivers(c: Config, s: State, a: Action)
    requires Sound(c) && Kept(c, s) && a.RestoreItem? && BytesKept(c, s, a.id)
    requires s.rows[a.id].status == Held
    requires a.id in Apply(c, s, a).rows && Apply(c, s, a).rows[a.id].status == Status.Restored
    ensures var row, files := s.rows[a.id], Apply(c, s, a).files;
            && row.storeName in s.taken && IsFile(files, row.origPath)
            && files[row.origPath].data == s.taken[row.storeName]
  {
    SidecarAgreesWithRow(c, s, a.id, a.sidecarReadable);
    RestoreIsReady(c, s, a.id, a.sidecarReadable);
    var r := Restore(c, s.files, SidecarFromItem(c, s.files, s.rows[a.id], a.sidecarReadable), a.faults);
    assert r.out.Ok?;
  }

  /**
   Whatever happens in between and whatever fails, restoring an item brings back the bytes its
   file had when it was held, to the path it was held from, unless a delete of that very item
   overwrote the blob and then could not remove it.
   */
  lemma WhatWasTakenComesBack(c: Config, s: State, hold: Action, actions: seq<Action>, restore: Action)
    requires Sound(c) && Kept(c, s) && Enabled(c, s, hold) && hold.HoldFile?
    requires s.nextId in Apply(c, s, hold).rows
    requires CanRun(c, Apply(c, s, hold), actions) && NeverWipes(c, Apply(c, s, hold), actions, s.nextId)
    requires restore.RestoreItem? && restore.id == s.nextId
    ensures var u := Run(c, Apply(c, s, hold), actions);
            var v := Apply(c, u, restore);
            var path := Segments(hold.path);
            && s.nextId in u.rows && s.nextId in v.rows
            && (u.rows[s.nextId].status == Held && v.rows[s.nextId].status == Status.Restored ==>
                  IsFile(s.files, path) && IsFile(v.files, path) && v.files[path].data == s.files[path].data)
  {
    var t := Apply(c, s, hold);
    HoldRecords(c, s, hold);
    var u := Run(c, t, actions);
    RunKeepsBytes(c, t, actions, s.nextId);
    RowsNeverReturnToHeld(c, t, actions);
    StepAdvances(c, u, restore);
    if u.rows[s.nextId].status == Held && Apply(c, u, restore).rows[s.nextId].status == Status.Restored {
      RestoreDelivers(c, u, restore);
    }
  }

  // ------------------------------------------------ why the conditions are needed

  /** Where a step leaves a blob under a name no row has. */
  ghost predicate Orphaned(c: Config, t: State, name: string) {
    name in BlobNames(c, t.files) && name !in HeldNames(t.rows)
  }

  lemma UnusedBlobIsOrphan(c: Config, t: State, name: string)
    requires IsStoreName(name) && Blob(c, name) in t.files
    requires forall id :: id in t.rows ==> t.rows[id].storeName != name
    ensures Orphaned(c, t, name)
  {
    StorePathsInStore(c, name);
    assert Blob(c, name)[|StoreDir(c)|] == name;
  }

  /** A hold whose sidecar cannot be written reports an error and leaves a blob no row knows. */
  lemma LostSidecarOrphansBlob(c: Config, s: State, a: Action)
    requires Sound(c) && Kept(c, s) && Enabled(c, s, a) && a.HoldFile?
    requires CheckTargetPath(a.path, c.configDir, c.browseRoot).None?
    requires Looks(s.files, Segments(a.path), a.hold) && !a.hold.random && !a.hold.sidecar.Fine?
    requires Moves(s.files, Segments(a.path), Blob(c, a.name), a.hold.move)
    ensures var t := Apply(c, s, a);
            Orphaned(c, t, a.name) && t.rows == s.rows && Segments(a.path) !in t.files
  {
    HoldSucceedsExactly(c, s.files, Segments(a.path), a.signature, a.scanId, a.name, a.now, a.hold);
    UnusedBlobIsOrphan(c, Apply(c, s, a), a.name);
  }

  /** A copy that could not be taken back stays in the store though the file was not held. */
  lemma PartialCopyOrphansBlob(c: Config, s: State, a: Action)
    requires Sound(c) && Kept(c, s) && Enabled(c, s, a) && a.HoldFile?
    requires CheckTargetPath(a.path, c.configDir, c.browseRoot).None?
    requires Looks(s.files, Segments(a.path), a.hold) && !a.hold.random
    requires LeavesCopy(s.files, Segments(a.path), Blob(c, a.name), a.hold.move)
    ensures var t, path := Apply(c, s, a), Segments(a.path);
            && Orphaned(c, t, a.name) && t.rows == s.rows
            && IsFile(t.files, path) && t.files[path].data == s.files[path].data
  {
    HoldSucceedsExactly(c, s.files, Segments(a.path), a.signature, a.scanId, a.name, a.now, a.hold);
    UnusedBlobIsOrphan(c, Apply(c, s, a), a.name);
  }

  /** A file that cannot be put back after a failed insert stays in the store without a row. */
  lemma FailedCompensationOrphansBlob(c: Config, s: State, a: Action)
    requires Sound(c) && Kept(c, s) && Enabled(c, s, a) && a.HoldFile? && !a.recorded
    requires CheckTargetPath(a.path, c.configDir, c.browseRoot).None?
    requires Looks(s.files, Segments(a.path), a.hold) && !a.hold.random && a.hold.sidecar.Fine?
    requires Moves(s.files, Segments(a.path), Blob(c, a.name), a.hold.move)
    requires !Returns(s.files, Segments(a.path), a.undo)
    ensures var t := Apply(c, s, a);
            && Orphaned(c, t, a.name) && t.rows == s.rows
            && IsFile(t.files, Blob(c, a.name)) && t.files[Blob(c, a.name)].data == s.files[Segments(a.path)].data
  {
    var path, blob := Segments(a.path), Blob(c, a.name);
    HoldSucceedsExactly(c, s.files, path, a.signature, a.scanId, a.name, a.now, a.hold);
    UndoSucceedsExactly(c, s.files, path, a.signature, a.scanId, a.name, a.now, a.hold, a.undo);
    HoldReady(c, s.files, path, a.signature, a.scanId, a.name, a.now, a.hold);
    var h := Hold(c, s.files, path, a.signature, a.scanId, a.name, a.now, a.hold);
    RestoreSucceedsExactly(c, h.files, h.out.value, a.undo);
    var r := Restore(c, h.files, h.out.value, a.undo);
    RestIsSame(h.files, r.files, path, path, path, blob);
    UnusedBlobIsOrphan(c, Apply(c, s, a), a.name);
  }

  /** A restore or delete whose status cannot be written leaves a held row without a blob. */
  lemma LostStatusLeavesEmptyRow(c: Config, s: State, a: Action)
    requires Sound(c) && Kept(c, s) && Enabled(c, s, a)
    requires (a.RestoreItem? || a.DeleteItem?) && a.id in s.rows && s.rows[a.id].status == Held && !a.statusWritten
    requires a.RestoreItem? ==> PutsBack(s.files, Blob(c, s.rows[a.id].storeName), s.rows[a.id].origPath, a.faults)
    requires a.DeleteItem? ==> !a.purge.remove
    ensures var t := Apply(c, s, a);
            a.id in t.rows && t.rows[a.id].status == Held && Blob(c, t.rows[a.id].storeName) !in t.files
  {
    if a.RestoreItem? {
      SidecarAgreesWithRow(c, s, a.id, a.sidecarReadable);
      RestoreIsReady(c, s, a.id, a.sidecarReadable);
      RestoreSucceedsExactly(c, s.files, SidecarFromItem(c, s.files, s.rows[a.id], a.sidecarReadable), a.faults);
    } else {
      DeleteKept(c, s, a);
    }
  }

  /** A delete that cannot remove the blob reports an error, but the row now holds only zeros. */
  lemma FailedPurgeKeepsOnlyZeros(c: Config, s: State, a: Action)
    requires Sound(c) && Kept(c, s) && a.DeleteItem? && a.id in s.rows && BlobIntact(c, s, a.id)
    requires s.rows[a.id].status == Held
    requires a.purge.remove && !a.purge.stat && !a.purge.open && a.purge.zeroed.None?
    ensures var t, name := Apply(c, s, a), s.rows[a.id].storeName;
            && t.rows == s.rows && IsFile(t.files, Blob(c, name))
            && t.files[Blob(c, name)].data == Zeros(|s.taken[name]|)
  {
    DeleteKept(c, s, a);
    var data := s.files[Blob(c, s.rows[a.id].storeName)].data;
    assert Zeros(|data|) + data[|data|..] == Zeros(|data|);
  }
}
