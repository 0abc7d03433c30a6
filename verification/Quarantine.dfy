/**
 The quarantine store on an abstract file system in which every primitive may fail.

 What each operation leaves behind is a function of the files before it and of the failures it
 meets; the classes of QuarantineStore perform the operations step by step and are proved to do
 exactly that. The theorems are about these functions: no failure pattern loses the bytes of a file,
 hold and restore undo each other, and over any reliable run of the handlers the blobs in the store
 are exactly those the table calls held.
 */
module Quarantine {
  import opened Wrappers
  import opened Paths

  datatype Node = File(data: string, mode: nat) | Dir | Special

  /** The files by cleaned absolute path. */
  type Files = map<Path, Node>

  /** What a blob's sidecar records; `origPath` is the cleaned absolute path. */
  datatype Sidecar = Sidecar(name: string, origPath: Path, origMode: nat, signature: string,
                             sha256: string, scanId: int, size: nat, movedAt: string)

  /** The server's settings, and the library codecs the store relies on. */
  datatype Config = Config(configDir: string, browseRoot: string, digest: string -> string,
                           marshal: Sidecar -> string, unmarshal: string -> Option<Sidecar>)

  function StoreDir(c: Config): Path {
    Segments(c.configDir) + ["quarantine"]
  }

  function Blob(c: Config, name: string): Path {
    StoreDir(c) + [name]
  }

  function SidecarPath(c: Config, name: string): Path {
    StoreDir(c) + [name + ".json"]
  }

  /** 16 random bytes in hexadecimal. */
  predicate IsStoreName(name: string) {
    |name| == 32 && forall i :: 0 <= i < |name| ==> name[i] in "0123456789abcdef"
  }

  lemma StorePathsDiffer(c: Config, a: string, b: string)
    ensures Blob(c, a) == Blob(c, b) ==> a == b
    ensures SidecarPath(c, a) == SidecarPath(c, b) ==> a == b
    ensures IsStoreName(a) && IsStoreName(b) ==> Blob(c, a) != SidecarPath(c, b)
  {
    var n := |StoreDir(c)|;
    assert Blob(c, a)[n] == a && Blob(c, b)[n] == b && SidecarPath(c, b)[n] == b + ".json";
    assert SidecarPath(c, a)[n] == a + ".json";
    if a + ".json" == b + ".json" {
      assert a == (a + ".json")[..|a|] && b == (b + ".json")[..|b|];
    }
  }

  /** JSON gives back what it was given; names and paths are valid UTF-8. */
  ghost predicate Faithful(c: Config) {
    forall sc: Sidecar :: c.unmarshal(c.marshal(sc)) == Some(sc)
  }

  function Parent(p: Path): Path {
    if p == [] then [] else p[..|p| - 1]
  }

  predicate IsDir(fs: Files, p: Path) {
    p in fs && fs[p].Dir?
  }

  predicate IsFile(fs: Files, p: Path) {
    p in fs && fs[p].File?
  }

  /** May a file be put at `p`? Its directory must exist and `p` must not be one itself. */
  predicate CanPlace(fs: Files, p: Path) {
    p != [] && IsDir(fs, Parent(p)) && !IsDir(fs, p)
  }

  const PRIVATE: nat := 0x180
  const DEFAULT_MODE: nat := 0x1A4

  function SetMode(fs: Files, p: Path, mode: nat): Files {
    if IsFile(fs, p) then fs[p := File(fs[p].data, mode)] else fs
  }

  /** Overwriting a file keeps its mode; a new one is private. */
  function Written(fs: Files, p: Path, data: string): Files {
    fs[p := File(data, if IsFile(fs, p) then fs[p].mode else PRIVATE)]
  }

  // -------------------------------------------------------------------- moveFile

  /** Which steps of a move fail; `copy` is what an interrupted copy leaves behind. */
  datatype MoveFaults = MoveFaults(rename: bool, open: bool, create: bool, copy: Option<string>,
                                   close: bool, removeSrc: bool, removeDst: bool)

  datatype Moved = Moved(files: Files, ok: bool)

  predicate Renames(fs: Files, src: Path, dst: Path, f: MoveFaults) {
    !f.rename && src in fs && CanPlace(fs, dst)
  }

  /** Does the copy that stands in for a failed rename get as far as deleting the source? */
  predicate Copies(fs: Files, src: Path, dst: Path, f: MoveFaults) {
    && src in fs && !f.open && !f.create && CanPlace(fs, dst) && (dst in fs ==> fs[dst].File?)
    && f.copy.None? && !f.close && !f.removeSrc
  }

  predicate Moves(fs: Files, src: Path, dst: Path, f: MoveFaults) {
    Renames(fs, src, dst, f) || Copies(fs, src, dst, f)
  }

  /** Does a failing move leave a copy, whole or partial, at a destination that was free? */
  predicate LeavesCopy(fs: Files, src: Path, dst: Path, f: MoveFaults) {
    !Moves(fs, src, dst, f) && src in fs && !f.open && !f.create && CanPlace(fs, dst) && f.removeDst
  }

  /**
   A move succeeds by renaming or by copying and deleting; a failed one may leave a copy at the
   destination, but only if that could not be removed either.
   */
  function MoveFile(fs: Files, src: Path, dst: Path, f: MoveFaults): (r: Moved)
    requires src != dst && (src in fs ==> fs[src].File?)
    ensures r.ok ==> && src in fs && src !in r.files && IsFile(r.files, dst)
                     && r.files[dst].data == fs[src].data
                     && (r.files[dst].mode == fs[src].mode || f.rename)
    ensures !r.ok && src in fs ==> src in r.files && r.files[src] == fs[src]
    ensures r.files - {src, dst} == fs - {src, dst}
    ensures !r.ok && dst !in fs && !f.removeDst ==> r.files == fs
    ensures dst in r.files && dst !in fs ==> r.files[dst].File?
  {
    if Renames(fs, src, dst, f) then Moved((fs - {src})[dst := fs[src]], true)
    else if Copies(fs, src, dst, f) then Moved(Written(fs, dst, fs[src].data) - {src}, true)
    else if src !in fs || f.open || f.create || !CanPlace(fs, dst) || (dst in fs && !fs[dst].File?) then Moved(fs, false)
    else if f.removeDst then Moved(Written(fs, dst, if f.copy.Some? then f.copy.value else fs[src].data), false)
    else Moved(fs - {dst}, false)
  }

  // ------------------------------------------------------------------------ Hold

  datatype StoreError =
    | StatFailed | NotRegular | OpenFailed | Changed | ReadFailed | NoName | MoveFailed | SidecarFailed
    | NotInStore | OriginParentGone | OriginExists | RemoveFailed

  /** How writing a sidecar fails, if it does. */
  datatype WriteFault = Fine | Refused | CutShort(left: string)

  datatype HoldFaults = HoldFaults(lstat: bool, open: bool, changed: bool, read: bool, neutralise: bool,
                                   random: bool, move: MoveFaults, undo: bool, chmod: bool, sidecar: WriteFault)

  datatype HoldResult = HoldResult(files: Files, out: Result<Sidecar, StoreError>)

  function SidecarOf(c: Config, fs: Files, path: Path, signature: string, scanId: int, name: string, now: string): Sidecar
    requires IsFile(fs, path)
  {
    Sidecar(name, path, fs[path].mode, signature, c.digest(fs[path].data), scanId, |fs[path].data|, now)
  }

  /** Store names are fresh: nothing in the store uses them yet. */
  predicate FreshIn(c: Config, fs: Files, name: string) {
    IsStoreName(name) && Blob(c, name) !in fs && SidecarPath(c, name) !in fs
  }

  /** The last step of a hold: the blob is in place, its sidecar is written or not. */
  function Describe(c: Config, held: Files, sc: Sidecar, fault: WriteFault): (r: HoldResult)
    requires SidecarPath(c, sc.name) !in held
    ensures r.files - {SidecarPath(c, sc.name)} == held
    ensures r.out == if fault.Fine? then Ok(sc) else Err(SidecarFailed)
    ensures SidecarPath(c, sc.name) in r.files ==> r.files[SidecarPath(c, sc.name)].File?
    ensures fault.Fine? ==> && SidecarPath(c, sc.name) in r.files
                            && r.files[SidecarPath(c, sc.name)] == File(c.marshal(sc), PRIVATE)
  {
    match fault
    case Fine => HoldResult(Written(held, SidecarPath(c, sc.name), c.marshal(sc)), Ok(sc))
    case Refused => HoldResult(held, Err(SidecarFailed))
    case CutShort(left) => HoldResult(Written(held, SidecarPath(c, sc.name), left), Err(SidecarFailed))
  }

  /** The move, and what follows it: make the blob private and describe it, or give the mode back. */
  function TakeAway(c: Config, fs: Files, sc: Sidecar, f: HoldFaults): (r: HoldResult)
    requires FreshIn(c, fs, sc.name) && IsFile(fs, sc.origPath)
    ensures r.files - {sc.origPath, Blob(c, sc.name), SidecarPath(c, sc.name)} == fs - {sc.origPath}
    ensures r.out == Ok(sc) || r.out in {Err(MoveFailed), Err(SidecarFailed)}
    ensures r.out in {Ok(sc), Err(SidecarFailed)} ==>
              && sc.origPath !in r.files && IsFile(r.files, Blob(c, sc.name))
              && r.files[Blob(c, sc.name)].data == fs[sc.origPath].data
              && (SidecarPath(c, sc.name) in r.files ==> r.files[SidecarPath(c, sc.name)].File?)
    ensures r.out == Ok(sc) ==> && SidecarPath(c, sc.name) in r.files
                                && r.files[SidecarPath(c, sc.name)] == File(c.marshal(sc), PRIVATE)
    ensures r.out == Err(MoveFailed) ==>
              && SidecarPath(c, sc.name) !in r.files
              && IsFile(r.files, sc.origPath) && r.files[sc.origPath].data == fs[sc.origPath].data
              && (Blob(c, sc.name) in r.files ==> r.files[Blob(c, sc.name)].File? && f.move.removeDst)
  {
    StorePathsDiffer(c, sc.name, sc.name);
    var path, blob := sc.origPath, Blob(c, sc.name);
    var moved := MoveFile(fs, path, blob, f.move);
    if moved.ok then Describe(c, if f.chmod then moved.files else SetMode(moved.files, blob, PRIVATE), sc, f.sidecar)
    else HoldResult(if f.undo then moved.files else SetMode(moved.files, path, sc.origMode), Err(MoveFailed))
  }

  /** The part of a hold that changes files: take the mode away, draw a name, move. */
  function Take(c: Config, fs: Files, sc: Sidecar, f: HoldFaults): (r: HoldResult)
    requires FreshIn(c, fs, sc.name) && IsFile(fs, sc.origPath) && sc.origMode == fs[sc.origPath].mode
    ensures r.files - {sc.origPath, Blob(c, sc.name), SidecarPath(c, sc.name)} == fs - {sc.origPath}
    ensures r.out == Ok(sc) || r.out in {Err(NoName), Err(MoveFailed), Err(SidecarFailed)}
    ensures r.out in {Ok(sc), Err(SidecarFailed)} ==>
              && sc.origPath !in r.files && IsFile(r.files, Blob(c, sc.name))
              && r.files[Blob(c, sc.name)].data == fs[sc.origPath].data
              && (SidecarPath(c, sc.name) in r.files ==> r.files[SidecarPath(c, sc.name)].File?)
    ensures r.out == Ok(sc) ==> && SidecarPath(c, sc.name) in r.files
                                && r.files[SidecarPath(c, sc.name)] == File(c.marshal(sc), PRIVATE)
    ensures r.out in {Err(NoName), Err(MoveFailed)} ==>
              && SidecarPath(c, sc.name) !in r.files
              && IsFile(r.files, sc.origPath) && r.files[sc.origPath].data == fs[sc.origPath].data
              && (Blob(c, sc.name) in r.files ==> r.files[Blob(c, sc.name)].File? && f.move.removeDst)
  {
    var neutral := if f.neutralise then fs else SetMode(fs, sc.origPath, 0);
    assert neutral - {sc.origPath} == fs - {sc.origPath};
    if f.random then HoldResult(neutral, Err(NoName)) else TakeAway(c, neutral, sc, f)
  }

  /**
   After a successful hold the blob has the bytes of the file, the file is gone and the sidecar
   says how to bring it back. After a failed one the bytes are still at the origin, except when
   only the sidecar could not be written: then they are in the blob.
   */
  function Hold(c: Config, fs: Files, path: Path, signature: string, scanId: int, name: string, now: string,
                f: HoldFaults): (r: HoldResult)
    requires FreshIn(c, fs, name)
    ensures r.files - {path, Blob(c, name), SidecarPath(c, name)} == fs - {path}
    ensures r.out.Ok? ==> && IsFile(fs, path) && path !in r.files
                          && r.out.value == SidecarOf(c, fs, path, signature, scanId, name, now)
                          && IsFile(r.files, Blob(c, name)) && r.files[Blob(c, name)].data == fs[path].data
                          && SidecarPath(c, name) in r.files
                          && r.files[SidecarPath(c, name)] == File(c.marshal(r.out.value), PRIVATE)
    ensures r.out == Err(SidecarFailed) ==>
              && IsFile(fs, path) && path !in r.files
              && IsFile(r.files, Blob(c, name)) && r.files[Blob(c, name)].data == fs[path].data
              && (SidecarPath(c, name) in r.files ==> r.files[SidecarPath(c, name)].File?)
    ensures r.out.Err? && r.out != Err(SidecarFailed) ==>
              && SidecarPath(c, name) !in r.files
              && (IsFile(fs, path) ==> IsFile(r.files, path) && r.files[path].data == fs[path].data)
              && (!IsFile(fs, path) ==> r.files == fs)
              && (Blob(c, name) in r.files ==> r.files[Blob(c, name)].File? && f.move.removeDst)
  {
    StorePathsDiffer(c, name, name);
    if f.lstat || path !in fs then HoldResult(fs, Err(StatFailed))
    else if !fs[path].File? then HoldResult(fs, Err(NotRegular))
    else if f.open then HoldResult(fs, Err(OpenFailed))
    else if f.changed then HoldResult(fs, Err(Changed))
    else if f.read then HoldResult(fs, Err(ReadFailed))
    else Take(c, fs, SidecarOf(c, fs, path, signature, scanId, name, now), f)
  }

  // --------------------------------------------------------------------- Restore

  datatype RestoreFaults = RestoreFaults(stat: bool, parent: bool, lstat: bool, move: MoveFaults,
                                         chmod: bool, sidecar: bool)

  datatype RestoreResult = RestoreResult(files: Files, out: Result<(), StoreError>)

  function RestoredMode(sc: Sidecar): nat {
    if sc.origMode == 0 then DEFAULT_MODE else sc.origMode
  }

  /**
   A successful restore puts the blob's bytes at the original path and empties the store of them;
   a failed one leaves the blob as it was. Nothing else changes, and an existing file is never
   overwritten unless looking for it failed.
   */
  function Restore(c: Config, fs: Files, sc: Sidecar, f: RestoreFaults): (r: RestoreResult)
    requires sc.origPath != Blob(c, sc.name) && sc.origPath != SidecarPath(c, sc.name)
    requires Blob(c, sc.name) in fs ==> fs[Blob(c, sc.name)].File?
    requires IsStoreName(sc.name)
    ensures r.files - {sc.origPath, Blob(c, sc.name), SidecarPath(c, sc.name)} ==
            fs - {sc.origPath, Blob(c, sc.name), SidecarPath(c, sc.name)}
    ensures r.out.Ok? ==> && Blob(c, sc.name) in fs && Blob(c, sc.name) !in r.files
                          && IsFile(r.files, sc.origPath)
                          && r.files[sc.origPath].data == fs[Blob(c, sc.name)].data
                          && (!f.chmod ==> r.files[sc.origPath].mode == RestoredMode(sc))
                          && (!f.sidecar ==> SidecarPath(c, sc.name) !in r.files)
                          && (f.sidecar ==> r.files - {sc.origPath, Blob(c, sc.name)} == fs - {sc.origPath, Blob(c, sc.name)})
                          && (!f.lstat ==> sc.origPath !in fs)
    ensures r.out.Err? ==> && r.files - {sc.origPath} == fs - {sc.origPath}
                           && (!f.lstat && sc.origPath in fs ==> r.files == fs)
                           && (r.files == fs || r.out == Err(MoveFailed))
  {
    StorePathsDiffer(c, sc.name, sc.name);
    var src := Blob(c, sc.name);
    if f.stat || src !in fs then RestoreResult(fs, Err(NotInStore))
    else if f.parent || !IsDir(fs, Parent(sc.origPath)) then RestoreResult(fs, Err(OriginParentGone))
    else if !f.lstat && sc.origPath in fs then RestoreResult(fs, Err(OriginExists))
    else
      var moved := MoveFile(fs, src, sc.origPath, f.move);
      if !moved.ok then RestoreResult(moved.files, Err(MoveFailed))
      else
        var put := if f.chmod then moved.files else SetMode(moved.files, sc.origPath, RestoredMode(sc));
        RestoreResult(if f.sidecar then put else put - {SidecarPath(c, sc.name)}, Ok(()))
  }

  // ----------------------------------------------------------------------- Purge

  /** `zeroed` is how many bytes an interrupted overwrite reaches; None overwrites all. */
  datatype PurgeFaults = PurgeFaults(stat: bool, open: bool, zeroed: Option<nat>, remove: bool, sidecar: bool)

  datatype PurgeResult = PurgeResult(files: Files, ok: bool)

  function Zeros(n: nat): (s: string)
    ensures |s| == n && forall i :: 0 <= i < n ==> s[i] == '\0'
  {
    seq(n, i => '\0')
  }

  function Overwritten(data: string, zeroed: Option<nat>): (s: string)
    ensures |s| == |data|
    ensures forall i :: 0 <= i < |s| ==> s[i] == if zeroed.None? || i < zeroed.value then '\0' else data[i]
  {
    var n := if zeroed.None? || zeroed.value > |data| then |data| else zeroed.value;
    Zeros(n) + data[n..]
  }

  function Purge(c: Config, fs: Files, name: string, f: PurgeFaults): (r: PurgeResult)
    requires Blob(c, name) in fs ==> fs[Blob(c, name)].File?
    requires IsStoreName(name)
    ensures r.files - {Blob(c, name), SidecarPath(c, name)} == fs - {Blob(c, name), SidecarPath(c, name)}
    ensures r.ok ==> Blob(c, name) !in r.files && (!f.sidecar ==> SidecarPath(c, name) !in r.files)
    ensures !r.ok ==> f.remove && r.files.Keys == fs.Keys && r.files - {Blob(c, name)} == fs - {Blob(c, name)}
    ensures !r.ok ==> IsFile(r.files, Blob(c, name)) && (f.stat || f.open ==> r.files == fs)
    ensures Blob(c, name) !in fs ==> r.ok
  {
    StorePathsDiffer(c, name, name);
    var blob := Blob(c, name);
    if blob !in fs then PurgeResult(if f.sidecar then fs else fs - {SidecarPath(c, name)}, true)
    else
      var wiped := if f.stat || f.open then fs else fs[blob := File(Overwritten(fs[blob].data, f.zeroed), fs[blob].mode)];
      if f.remove then PurgeResult(wiped, false)
      else PurgeResult(if f.sidecar then wiped - {blob} else wiped - {blob, SidecarPath(c, name)}, true)
  }

  // ------------------------------------------------------ hold and restore undo each other

  /** At most the renames fail, so that files are copied instead. */
  predicate OnlyRenameFails(f: MoveFaults) {
    !f.open && !f.create && f.copy.None? && !f.close && !f.removeSrc
  }

  predicate SmoothHold(f: HoldFaults) {
    && !f.lstat && !f.open && !f.changed && !f.read && !f.random && !f.chmod && f.sidecar.Fine?
    && OnlyRenameFails(f.move)
  }

  predicate SmoothRestore(f: RestoreFaults) {
    !f.stat && !f.parent && !f.lstat && !f.chmod && !f.sidecar && OnlyRenameFails(f.move)
  }

  /**
   Bytes survive hold and restore whatever failed on the way, as long as both reported success;
   only the file's mode and a left-over sidecar can tell the difference.
   */
  lemma HoldThenRestoreKeepsBytes(c: Config, fs: Files, path: Path, signature: string, scanId: int, name: string,
                                  now: string, f: HoldFaults, g: RestoreFaults)
    requires FreshIn(c, fs, name)
    requires Hold(c, fs, path, signature, scanId, name, now, f).out.Ok?
    ensures var h := Hold(c, fs, path, signature, scanId, name, now, f);
            && path != Blob(c, name) && path != SidecarPath(c, name)
            && var r := Restore(c, h.files, h.out.value, g);
            r.out.Ok? ==>
              && IsFile(r.files, path) && r.files[path].data == fs[path].data
              && r.files - {path, SidecarPath(c, name)} == fs - {path}
              && (SidecarPath(c, name) in r.files <==> g.sidecar)
              && (!g.chmod && fs[path].mode != 0 ==> r.files[path] == fs[path])
  {
    var h := Hold(c, fs, path, signature, scanId, name, now, f);
    var blob, side := Blob(c, name), SidecarPath(c, name);
    StorePathsDiffer(c, name, name);
    var r := Restore(c, h.files, h.out.value, g);
    assert r.files - {path, blob, side} == h.files - {path, blob, side} == fs - {path};
    if r.out.Ok? {
      assert blob !in r.files;
      assert r.files - {path, side} == r.files - {path, blob, side};
      if g.sidecar {
        assert side in h.files - {path, blob};
        assert side in r.files - {path, blob};
      }
    }
  }

  /** A file that can be put back: its directory is there, and so is the store. */
  predicate Ready(c: Config, fs: Files, path: Path) {
    IsFile(fs, path) && path != [] && IsDir(fs, Parent(path)) && IsDir(fs, StoreDir(c))
  }

  lemma SmoothHoldSucceeds(c: Config, fs: Files, path: Path, signature: string, scanId: int, name: string,
                           now: string, f: HoldFaults)
    requires FreshIn(c, fs, name) && Ready(c, fs, path) && SmoothHold(f)
    ensures Hold(c, fs, path, signature, scanId, name, now, f).out.Ok?
    ensures path != Blob(c, name) && path != SidecarPath(c, name)
  {
    assert Parent(Blob(c, name)) == StoreDir(c);
    var neutral := if f.neutralise then fs else SetMode(fs, path, 0);
    assert CanPlace(neutral, Blob(c, name));
    assert MoveFile(neutral, path, Blob(c, name), f.move).ok;
  }

  lemma SmoothRestoreSucceeds(c: Config, fs: Files, sc: Sidecar, f: RestoreFaults)
    requires IsStoreName(sc.name) && IsFile(fs, Blob(c, sc.name)) && SmoothRestore(f)
    requires sc.origPath !in fs && sc.origPath != [] && IsDir(fs, Parent(sc.origPath))
    requires sc.origPath != SidecarPath(c, sc.name)
    ensures sc.origPath != Blob(c, sc.name) && Restore(c, fs, sc, f).out.Ok?
  {
  }

  /**
   Holding a file and restoring it leaves every file as it was, whether the moves were renames
   or copies; a file with mode 0 comes back with the default mode instead.
   */
  lemma HoldThenRestoreIsIdentity(c: Config, fs: Files, path: Path, signature: string, scanId: int, name: string,
                                  now: string, f: HoldFaults, g: RestoreFaults)
    requires FreshIn(c, fs, name) && Ready(c, fs, path) && SmoothHold(f) && SmoothRestore(g)
    ensures var h := Hold(c, fs, path, signature, scanId, name, now, f);
            && h.out.Ok? && path != Blob(c, name) && path != SidecarPath(c, name)
            && var r := Restore(c, h.files, h.out.value, g);
               r.out.Ok? && r.files == fs[path := File(fs[path].data, if fs[path].mode == 0 then DEFAULT_MODE else fs[path].mode)]
    ensures var h := Hold(c, fs, path, signature, scanId, name, now, f);
            Restore(c, h.files, h.out.value, g).files == fs <==> fs[path].mode != 0
  {
    SmoothHoldSucceeds(c, fs, path, signature, scanId, name, now, f);
    var h := Hold(c, fs, path, signature, scanId, name, now, f);
    var blob, side := Blob(c, name), SidecarPath(c, name);
    StorePathsDiffer(c, name, name);
    assert Parent(path) != path && Parent(path) != blob && Parent(path) != side;
    assert Parent(path) in fs - {path};
    assert Parent(path) in h.files - {path, blob, side} && h.files[Parent(path)] == fs[Parent(path)];
    SmoothRestoreSucceeds(c, h.files, h.out.value, g);
    HoldThenRestoreKeepsBytes(c, fs, path, signature, scanId, name, now, f, g);
    var r := Restore(c, h.files, h.out.value, g);
    assert r.files - {path} == r.files - {path, side} == fs - {path};
    MapFromRest(fs, r.files, path);
  }

  lemma MapFromRest(before: Files, after: Files, p: Path)
    requires p in before && p in after && after - {p} == before - {p}
    ensures after == before[p := after[p]]
  {
    forall q | q in before
      ensures q in after && (q != p ==> after[q] == before[q])
    {
      if q != p {
        assert q in before - {p};
      }
    }
    forall q | q in after
      ensures q in before
    {
      if q != p {
        assert q in after - {p};
      }
    }
  }

  // ------------------------------------------------------ when a failed hold leaves no trace

  /** Does a hold get past looking at the file? What it does before that changes nothing. */
  predicate Looks(fs: Files, path: Path, f: HoldFaults) {
    !f.lstat && IsFile(fs, path) && !f.open && !f.changed && !f.read
  }

  /** A hold succeeds exactly when it draws a name, moves the file and writes the sidecar. */
  lemma HoldSucceedsExactly(c: Config, fs: Files, path: Path, signature: string, scanId: int, name: string,
                            now: string, f: HoldFaults)
    requires FreshIn(c, fs, name)
    ensures var h, looks, moves := Hold(c, fs, path, signature, scanId, name, now, f), Looks(fs, path, f), Moves(fs, path, Blob(c, name), f.move);
            && (h.out.Ok? <==> looks && !f.random && moves && f.sidecar.Fine?)
            && (h.out == Err(SidecarFailed) <==> looks && !f.random && moves && !f.sidecar.Fine?)
            && (h.out == Err(MoveFailed) <==> looks && !f.random && !moves)
            && (h.out == Err(NoName) <==> looks && f.random)
            && (Blob(c, name) in h.files <==> looks && !f.random && (moves || LeavesCopy(fs, path, Blob(c, name), f.move)))
  {
    var blob := Blob(c, name);
    StorePathsDiffer(c, name, name);
    if Looks(fs, path, f) {
      var neutral := if f.neutralise then fs else SetMode(fs, path, 0);
      assert Moves(neutral, path, blob, f.move) == Moves(fs, path, blob, f.move);
    }
  }

  /** The file's mode survives a hold that never gives it back. */
  predicate ModeNotTaken(fs: Files, path: Path, f: HoldFaults)
    requires IsFile(fs, path)
  {
    f.neutralise || fs[path].mode == 0
  }

  /** Which failures, on which files, a hold survives without changing any file. */
  predicate LeavesNoTrace(c: Config, fs: Files, path: Path, name: string, f: HoldFaults) {
    Looks(fs, path, f) ==>
      if f.random then ModeNotTaken(fs, path, f)
      else && !Moves(fs, path, Blob(c, name), f.move) && !LeavesCopy(fs, path, Blob(c, name), f.move)
           && (f.undo ==> ModeNotTaken(fs, path, f))
  }

  /**
   A hold changes nothing at all exactly when it fails before the move, or the move fails without
   leaving a copy in the store, and the mode bits taken away before the move are given back. They
   are not given back when no name could be drawn.
   */
  lemma FailedHoldLeavesNoTrace(c: Config, fs: Files, path: Path, signature: string, scanId: int, name: string,
                                now: string, f: HoldFaults)
    requires FreshIn(c, fs, name)
    ensures Hold(c, fs, path, signature, scanId, name, now, f).files == fs <==> LeavesNoTrace(c, fs, path, name, f)
    ensures LeavesNoTrace(c, fs, path, name, f) ==> Hold(c, fs, path, signature, scanId, name, now, f).out.Err?
  {
    HoldSucceedsExactly(c, fs, path, signature, scanId, name, now, f);
    if Looks(fs, path, f) {
      var h := Hold(c, fs, path, signature, scanId, name, now, f);
      var blob := Blob(c, name);
      if h.out in {Err(NoName), Err(MoveFailed)} && blob !in h.files {
        assert h.files - {path, blob, SidecarPath(c, name)} == h.files - {path};
        MapFromRest(fs, h.files, path);
        HeldMode(c, fs, path, signature, scanId, name, now, f);
      }
    }
  }

  /** The mode a failed hold leaves: taken away, unless that failed or it was given back. */
  lemma HeldMode(c: Config, fs: Files, path: Path, signature: string, scanId: int, name: string, now: string, f: HoldFaults)
    requires FreshIn(c, fs, name)
    requires Hold(c, fs, path, signature, scanId, name, now, f).out in {Err(NoName), Err(MoveFailed)}
    ensures IsFile(fs, path)
    ensures var h := Hold(c, fs, path, signature, scanId, name, now, f);
            && IsFile(h.files, path)
            && h.files[path].mode == if f.neutralise || (!f.random && !f.undo) then fs[path].mode else 0
  {
    StorePathsDiffer(c, name, name);
    var neutral := if f.neutralise then fs else SetMode(fs, path, 0);
    var moved := MoveFile(neutral, path, Blob(c, name), f.move);
    assert !moved.ok ==> moved.files[path] == neutral[path];
  }

  /** A readable file whose hold draws no name is left unreadable, though it was not taken. */
  lemma NamelessHoldTakesMode(c: Config, data: string, signature: string, scanId: int, name: string, now: string)
    requires IsStoreName(name)
    ensures var calm := MoveFaults(false, false, false, None, false, false, false);
            var f := HoldFaults(false, false, false, false, false, true, calm, false, false, Fine);
            var fs: Files := map[["f"] := File(data, DEFAULT_MODE)];
            && FreshIn(c, fs, name)
            && Hold(c, fs, ["f"], signature, scanId, name, now, f) == HoldResult(map[["f"] := File(data, 0)], Err(NoName))
            && !LeavesNoTrace(c, fs, ["f"], name, f)
  {
    assert |Blob(c, name)| >= 2 && |SidecarPath(c, name)| >= 2;
    var fs: Files := map[["f"] := File(data, DEFAULT_MODE)];
    assert SetMode(fs, ["f"], 0) == map[["f"] := File(data, 0)];
  }

  // ------------------------------------------------------ when a restore succeeds

  /** Does a restore put the blob back? */
  predicate PutsBack(fs: Files, blob: Path, origin: Path, f: RestoreFaults) {
    && !f.stat && blob in fs && !f.parent && IsDir(fs, Parent(origin)) && (f.lstat || origin !in fs)
    && Moves(fs, blob, origin, f.move)
  }

  lemma RestoreSucceedsExactly(c: Config, fs: Files, sc: Sidecar, f: RestoreFaults)
    requires IsStoreName(sc.name)
    requires sc.origPath != Blob(c, sc.name) && sc.origPath != SidecarPath(c, sc.name)
    requires Blob(c, sc.name) in fs ==> fs[Blob(c, sc.name)].File?
    ensures Restore(c, fs, sc, f).out.Ok? <==> PutsBack(fs, Blob(c, sc.name), sc.origPath, f)
    ensures Blob(c, sc.name) in Restore(c, fs, sc, f).files <==> Blob(c, sc.name) in fs && !PutsBack(fs, Blob(c, sc.name), sc.origPath, f)
  {
    var r, blob := Restore(c, fs, sc, f), Blob(c, sc.name);
    if r.out.Err? {
      assert blob in r.files <==> blob in r.files - {sc.origPath};
      assert blob in fs <==> blob in fs - {sc.origPath};
    }
  }

  /** Can a file that was just held be put straight back? */
  predicate Returns(fs: Files, path: Path, undo: RestoreFaults) {
    && !undo.stat && !undo.parent && IsDir(fs, Parent(path))
    && (!undo.move.rename || OnlyRenameFails(undo.move))
  }

  /** Putting a held file straight back succeeds exactly under that condition on the files before. */
  lemma UndoSucceedsExactly(c: Config, fs: Files, path: Path, signature: string, scanId: int, name: string,
                            now: string, f: HoldFaults, undo: RestoreFaults)
    requires FreshIn(c, fs, name) && Hold(c, fs, path, signature, scanId, name, now, f).out.Ok?
    ensures PutsBack(Hold(c, fs, path, signature, scanId, name, now, f).files, Blob(c, name), path, undo) <==> Returns(fs, path, undo)
  {
    var h, parent := Hold(c, fs, path, signature, scanId, name, now, f), Parent(path);
    var blob, side := Blob(c, name), SidecarPath(c, name);
    StorePathsDiffer(c, name, name);
    if parent != path && parent != blob && parent != side {
      assert parent in fs <==> parent in fs - {path};
      assert parent in h.files <==> parent in h.files - {path, blob, side};
    }
    assert IsDir(h.files, parent) <==> IsDir(fs, parent);
  }
}
