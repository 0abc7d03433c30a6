/**
 The quarantine store and the handlers as the objects they are, working step by step. Each method
 is proved to leave exactly the files and rows that the functions of Quarantine and
 QuarantineHandlers describe. The last parameters say which steps the system lets fail.
 */
module QuarantineStore {
  import opened Wrappers
  import opened Paths
  import Q = Quarantine
  import H = QuarantineHandlers

  class Store {
    const c: Q.Config
    var files: Q.Files

    constructor (c: Q.Config, files: Q.Files)
      ensures this.c == c && this.files == files
    {
      this.c, this.files := c, files;
    }

    method Rename(src: Path, dst: Path, fails: bool) returns (ok: bool)
      modifies this`files
      ensures ok == (!fails && src in old(files) && Q.CanPlace(old(files), dst))
      ensures files == if ok then (old(files) - {src})[dst := old(files)[src]] else old(files)
    {
      ok := !fails && src in files && Q.CanPlace(files, dst);
      if ok {
        files := (files - {src})[dst := files[src]];
      }
    }

    method Remove(p: Path, fails: bool) returns (ok: bool)
      modifies this`files
      ensures ok == (!fails && p in old(files))
      ensures files == if fails then old(files) else old(files) - {p}
    {
      ok := !fails && p in files;
      if !fails {
        files := files - {p};
      }
    }

    method Chmod(p: Path, mode: nat, fails: bool)
      modifies this`files
      ensures files == if fails then old(files) else Q.SetMode(old(files), p, mode)
    {
      if !fails && p in files && files[p].File? {
        files := files[p := Q.File(files[p].data, mode)];
      }
    }

    /** Opens `dst` for writing from scratch and copies the bytes of `src`; either step may fail. */
    method CopyTo(src: Path, dst: Path, f: Q.MoveFaults) returns (created: bool, copied: bool)
      requires src != dst && Q.IsFile(files, src)
      modifies this`files
      ensures created == (!f.create && Q.CanPlace(old(files), dst) && (dst in old(files) ==> old(files)[dst].File?))
      ensures copied == (created && f.copy.None?)
      ensures files == if !created then old(files)
                       else Q.Written(old(files), dst, if copied then old(files)[src].data else f.copy.value)
    {
      created := !f.create && Q.CanPlace(files, dst) && (dst in files ==> files[dst].File?);
      copied := false;
      if created {
        files := Q.Written(files, dst, "");
        copied := f.copy.None?;
        files := Q.Written(files, dst, if copied then files[src].data else f.copy.value);
      }
    }

    /** Renames, or else copies and removes the original; a copy that went wrong is removed. */
    method MoveFile(src: Path, dst: Path, f: Q.MoveFaults) returns (ok: bool)
      requires src != dst && (src in files ==> files[src].File?)
      modifies this`files
      ensures Q.Moved(files, ok) == Q.MoveFile(old(files), src, dst, f)
    {
      ok := Rename(src, dst, f.rename);
      if ok {
        return;
      }
      if f.open || src !in files {
        return;
      }
      var created, copied := CopyTo(src, dst, f);
      if !created {
        return;
      }
      if !copied || f.close {
        var _ := Remove(dst, f.removeDst);
        return;
      }
      ok := Remove(src, f.removeSrc);
      if !ok {
        var _ := Remove(dst, f.removeDst);
      }
    }

    method WriteSidecar(sc: Q.Sidecar, fault: Q.WriteFault) returns (ok: bool)
      modifies this`files
      ensures ok == fault.Fine?
      ensures files == match fault
                       case Fine => Q.Written(old(files), Q.SidecarPath(c, sc.name), c.marshal(sc))
                       case Refused => old(files)
                       case CutShort(left) => Q.Written(old(files), Q.SidecarPath(c, sc.name), left)
    {
      ok := fault.Fine?;
      var p := Q.SidecarPath(c, sc.name);
      match fault {
        case Fine => files := Q.Written(files, p, c.marshal(sc));
        case Refused =>
        case CutShort(left) => files := Q.Written(files, p, left);
      }
    }

    method Hold(path: Path, signature: string, scanId: int, name: string, now: string, f: Q.HoldFaults)
      returns (r: Result<Q.Sidecar, Q.StoreError>)
      requires Q.FreshIn(c, files, name)
      modifies this`files
      ensures Q.HoldResult(files, r) == Q.Hold(c, old(files), path, signature, scanId, name, now, f)
    {
      if f.lstat || path !in files {
        return Err(Q.StatFailed);
      }
      var info := files[path];
      if !info.File? {
        return Err(Q.NotRegular);
      }
      if f.open {
        return Err(Q.OpenFailed);
      }
      if f.changed {
        return Err(Q.Changed);
      }
      if f.read {
        return Err(Q.ReadFailed);
      }
      var sc := Q.SidecarOf(c, files, path, signature, scanId, name, now);
      Chmod(path, 0, f.neutralise);
      if f.random {
        return Err(Q.NoName);
      }
      var dst := Q.Blob(c, name);
      var ok := MoveFile(path, dst, f.move);
      if !ok {
        Chmod(path, info.mode, f.undo);
        return Err(Q.MoveFailed);
      }
      Chmod(dst, Q.PRIVATE, f.chmod);
      ok := WriteSidecar(sc, f.sidecar);
      if !ok {
        return Err(Q.SidecarFailed);
      }
      r := Ok(sc);
    }

    method Restore(sc: Q.Sidecar, f: Q.RestoreFaults) returns (r: Result<(), Q.StoreError>)
      requires H.RestoreReady(c, files, sc)
      modifies this`files
      ensures Q.RestoreResult(files, r) == Q.Restore(c, old(files), sc, f)
    {
      var src := Q.Blob(c, sc.name);
      if f.stat || src !in files {
        return Err(Q.NotInStore);
      }
      if f.parent || !Q.IsDir(files, Q.Parent(sc.origPath)) {
        return Err(Q.OriginParentGone);
      }
      if !f.lstat && sc.origPath in files {
        return Err(Q.OriginExists);
      }
      var ok := MoveFile(src, sc.origPath, f.move);
      if !ok {
        return Err(Q.MoveFailed);
      }
      var mode := sc.origMode;
      if mode == 0 {
        mode := Q.DEFAULT_MODE;
      }
      Chmod(sc.origPath, mode, f.chmod);
      var _ := Remove(Q.SidecarPath(c, sc.name), f.sidecar);
      r := Ok(());
    }

    method Purge(name: string, f: Q.PurgeFaults) returns (ok: bool)
      requires Q.IsStoreName(name) && (Q.Blob(c, name) in files ==> files[Q.Blob(c, name)].File?)
      modifies this`files
      ensures Q.PurgeResult(files, ok) == Q.Purge(c, old(files), name, f)
    {
      Q.StorePathsDiffer(c, name, name);
      var blob := Q.Blob(c, name);
      if !f.stat && blob in files {
        if !f.open {
          files := files[blob := Q.File(Q.Overwritten(files[blob].data, f.zeroed), files[blob].mode)];
        }
      }
      var present := blob in files;
      var removed := Remove(blob, present && f.remove);
      if present && !removed {
        return false;
      }
      var _ := Remove(Q.SidecarPath(c, name), f.sidecar);
      assert files == Q.Purge(c, old(files), name, f).files;
      ok := true;
    }

    method SidecarFor(name: string, readable: bool) returns (sc: Option<Q.Sidecar>)
      ensures sc == if readable && Q.IsFile(files, Q.SidecarPath(c, name))
                    then c.unmarshal(files[Q.SidecarPath(c, name)].data) else None
    {
      var p := Q.SidecarPath(c, name);
      if !readable || !(p in files && files[p].File?) {
        return None;
      }
      sc := c.unmarshal(files[p].data);
    }
  }

  datatype StatusError = NotWritten | NoSuchRow

  datatype Reply = Created | Done | BadRequest | NotFound | Conflict | BadGateway | InternalError

  /** The part of the server that owns the quarantine store and table. */
  class Server {
    const store: Store
    var rows: map<nat, H.Row>
    var nextId: nat
    ghost var taken: map<string, string>

    constructor (store: Store)
      ensures this.store == store && rows == map[] && nextId == 0 && taken == map[]
    {
      this.store := store;
      rows, nextId, taken := map[], 0, map[];
    }

    ghost function Current(): H.State
      reads this, store
    {
      H.State(store.files, rows, nextId, taken)
    }

    ghost predicate Ready(a: H.Action)
      reads this, store
    {
      H.Sound(store.c) && H.Kept(store.c, Current()) && H.Enabled(store.c, Current(), a)
    }

    method AddQuarantine(sc: Q.Sidecar, ghost data: string, succeeds: bool) returns (id: Option<nat>)
      modifies this
      ensures id == if succeeds then Some(old(nextId)) else None
      ensures Current() == if succeeds then H.Recorded(old(Current()), store.files, sc, data) else old(Current())
    {
      if !succeeds {
        return None;
      }
      id := Some(nextId);
      rows := rows[nextId := H.Row(sc.name, sc.origPath, sc.signature, sc.sha256,
                                   if sc.scanId > 0 then sc.scanId else 0, H.Held, sc.origMode)];
      taken := taken[sc.name := data];
      nextId := nextId + 1;
    }

    method SetQuarantineStatus(id: nat, status: H.Status, succeeds: bool) returns (r: Result<(), StatusError>)
      modifies this`rows
      ensures Current() == H.WithStatus(old(Current()), id, status, succeeds)
      ensures r == if !succeeds then Err(NotWritten) else if id !in old(rows) then Err(NoSuchRow) else Ok(())
    {
      if !succeeds {
        return Err(NotWritten);
      }
      if id !in rows {
        return Err(NoSuchRow);
      }
      rows := rows[id := rows[id].(status := status)];
      r := Ok(());
    }

    method HandleQuarantineFile(path: string, signature: string, scanId: int, name: string, now: string,
                                f: Q.HoldFaults, recorded: bool, undo: Q.RestoreFaults) returns (reply: Reply)
      requires Ready(H.HoldFile(path, signature, scanId, name, now, f, recorded, undo))
      modifies this, store`files
      ensures Current() == H.Apply(store.c, old(Current()), H.HoldFile(path, signature, scanId, name, now, f, recorded, undo))
      ensures reply == BadRequest <==> CheckTargetPath(path, store.c.configDir, store.c.browseRoot).Some?
      ensures reply == Created <==> old(nextId) < nextId
      ensures reply in {Created, BadRequest, BadGateway, InternalError}
    {
      ghost var s := Current();
      if CheckTargetPath(path, store.c.configDir, store.c.browseRoot).Some? {
        return BadRequest;
      }
      var held := store.Hold(Segments(path), signature, scanId, name, now, f);
      if held.Err? {
        return BadGateway;
      }
      var sc := held.value;
      var id := AddQuarantine(sc, s.files[Segments(path)].data, recorded);
      if id.None? {
        H.HoldReady(store.c, s.files, Segments(path), signature, scanId, name, now, f);
        var _ := store.Restore(sc, undo);
        return InternalError;
      }
      reply := Created;
    }

    method SidecarFromItem(row: H.Row, readable: bool) returns (sc: Q.Sidecar)
      ensures sc == H.SidecarFromItem(store.c, store.files, row, readable)
    {
      var found := store.SidecarFor(row.storeName, readable);
      if found.Some? {
        return found.value;
      }
      sc := Q.Sidecar(row.storeName, row.origPath, row.origMode, row.signature, row.sha256, row.scanId, 0, "");
    }

    method HandleRestoreQuarantine(id: nat, readable: bool, f: Q.RestoreFaults, statusWritten: bool) returns (reply: Reply)
      requires Ready(H.RestoreItem(id, readable, f, statusWritten))
      modifies this, store`files
      ensures Current() == H.Apply(store.c, old(Current()), H.RestoreItem(id, readable, f, statusWritten))
      ensures reply == NotFound <==> id !in old(rows)
      ensures id in old(rows) && old(rows)[id].status != H.Held ==> reply == Conflict
      ensures reply == Done ==> && id in old(rows) && old(rows)[id].status == H.Held
                                && Q.Blob(store.c, old(rows)[id].storeName) !in store.files
                                && Q.IsFile(store.files, old(rows)[id].origPath)
    {
      if id !in rows {
        return NotFound;
      }
      var item := rows[id];
      if item.status != H.Held {
        return Conflict;
      }
      H.RestoreIsReady(store.c, Current(), id, readable);
      H.SidecarAgreesWithRow(store.c, Current(), id, readable);
      var sc := SidecarFromItem(item, readable);
      var restored := store.Restore(sc, f);
      if restored.Err? {
        match restored.error {
          case OriginExists => return Conflict;
          case OriginParentGone => return Conflict;
          case _ => return BadGateway;
        }
      }
      var _ := SetQuarantineStatus(id, H.Restored, statusWritten);
      reply := Done;
    }

    method HandleDeleteQuarantine(id: nat, f: Q.PurgeFaults, statusWritten: bool) returns (reply: Reply)
      requires Ready(H.DeleteItem(id, f, statusWritten))
      modifies this, store`files
      ensures Current() == H.Apply(store.c, old(Current()), H.DeleteItem(id, f, statusWritten))
      ensures reply == NotFound <==> id !in old(rows)
      ensures reply == Done && old(rows)[id].status == H.Held ==> Q.Blob(store.c, old(rows)[id].storeName) !in store.files
      ensures reply in {Done, NotFound, BadGateway}
    {
      if id !in rows {
        return NotFound;
      }
      H.DeleteKept(store.c, Current(), H.DeleteItem(id, f, statusWritten));
      if rows[id].status == H.Held {
        var ok := store.Purge(rows[id].storeName, f);
        if !ok {
          return BadGateway;
        }
      }
      var _ := SetQuarantineStatus(id, H.Deleted, statusWritten);
      reply := Done;
    }
  }
}
