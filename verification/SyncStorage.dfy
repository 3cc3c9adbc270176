/** A storage replicated over several child storages (storage/providers/sync.go). */
module SyncStorage {
  import opened Common

  /** What a child hands back for an uploaded chunk; the tag is the child's own. */
  datatype Chunk = Chunk(number: int, etag: nat)

  datatype PartKey = PartKey(path: string, upload: nat, number: int)

  /** A CompleteMultipartUpload call as a child saw it. */
  datatype Completion = Completion(path: string, upload: nat, chunks: seq<Chunk>)

  /** The parts behind the given chunks, one after the other. */
  function Assemble(parts: map<PartKey, Bytes>, path: string, upload: nat, chunks: seq<Chunk>): Bytes {
    if chunks == [] then ""
    else
      var key := PartKey(path, upload, chunks[0].number);
      (if key in parts then parts[key] else "") + Assemble(parts, path, upload, chunks[1..])
  }

  /** A child storage. The n-th operation fails when `fails(n)`, and a failed operation changes nothing. A path is
      where its key says: a disk takes different spellings of a path for one file. `past` is what the child held
      after each operation so far. */
  class Child {
    var files: map<string, Bytes>
    var parts: map<PartKey, Bytes>
    var nextUpload: nat
    const fails: nat -> bool
    const key: string -> string
    var operations: nat
    ghost var past: seq<map<string, Bytes>>
    ghost var completions: seq<Completion>
    ghost var aborts: seq<(string, nat)>

    constructor (fails: nat -> bool, key: string -> string)
      ensures files == map[] && parts == map[] && past == [] && completions == [] && aborts == []
      ensures this.fails == fails && this.key == key && operations == 0
    {
      this.fails, this.key := fails, key;
      files, parts, nextUpload, operations := map[], map[], 0, 0;
      past, completions, aborts := [], [], [];
    }

    ghost predicate NoneFails(first: nat)
      reads this
    {
      forall n: nat | first <= n < operations :: !fails(n)
    }

    method Copy(srcPath: string, dstPath: string) returns (ok: bool)
      modifies this`files, this`operations, this`past
      ensures operations == old(operations) + 1 && past == old(past) + [files]
      ensures ok == (!fails(old(operations)) && key(srcPath) in old(files))
      ensures files == if ok then old(files)[key(dstPath) := old(files)[key(srcPath)]] else old(files)
    {
      ok := !fails(operations) && key(srcPath) in files;
      if ok {
        files := files[key(dstPath) := files[key(srcPath)]];
      }
      operations, past := operations + 1, past + [files];
    }

    method DeleteFile(path: string) returns (ok: bool)
      modifies this`files, this`operations, this`past
      ensures operations == old(operations) + 1 && past == old(past) + [files]
      ensures ok == (!fails(old(operations)) && key(path) in old(files))
      ensures files == if ok then old(files) - {key(path)} else old(files)
    {
      ok := !fails(operations) && key(path) in files;
      if ok {
        files := files - {key(path)};
      }
      operations, past := operations + 1, past + [files];
    }

    method CreateMultipartUpload(path: string) returns (upload: Option<nat>)
      modifies this`nextUpload, this`operations
      ensures operations == old(operations) + 1
      ensures upload == if fails(old(operations)) then None else Some(old(nextUpload))
      ensures nextUpload == old(nextUpload) + if upload.Some? then 1 else 0
    {
      upload := None;
      if !fails(operations) {
        upload, nextUpload := Some(nextUpload), nextUpload + 1;
      }
      operations := operations + 1;
    }

    method AbortMultipartUpload(path: string, upload: nat) returns (ok: bool)
      modifies this`parts, this`operations, this`aborts
      ensures operations == old(operations) + 1 && aborts == old(aborts) + [(path, upload)]
      ensures ok == !fails(old(operations))
      ensures parts == if ok then old(parts) - (set k | k in old(parts) && k.path == path && k.upload == upload)
                       else old(parts)
    {
      ok := !fails(operations);
      if ok {
        parts := parts - (set k | k in parts && k.path == path && k.upload == upload);
      }
      operations, aborts := operations + 1, aborts + [(path, upload)];
    }

    method UploadMultipartChunk(path: string, upload: nat, number: int, body: Bytes) returns (chunk: Option<Chunk>)
      modifies this`parts, this`operations
      ensures operations == old(operations) + 1
      ensures chunk == if fails(old(operations)) then None else Some(Chunk(number, old(operations)))
      ensures parts == if chunk.Some? then old(parts)[PartKey(path, upload, number) := body] else old(parts)
    {
      chunk := None;
      if !fails(operations) {
        chunk := Some(Chunk(number, operations));
        parts := parts[PartKey(path, upload, number) := body];
      }
      operations := operations + 1;
    }

    method CompleteMultipartUpload(path: string, upload: nat, chunks: seq<Chunk>) returns (ok: bool)
      modifies this`files, this`operations, this`past, this`completions
      ensures operations == old(operations) + 1 && past == old(past) + [files]
      ensures completions == old(completions) + [Completion(path, upload, chunks)]
      ensures ok ==> files == old(files)[key(path) := Assemble(parts, path, upload, chunks)]
      ensures !ok ==> files == old(files)
      ensures ok == (!fails(old(operations)) && chunks != []
                     && forall c | c in chunks :: PartKey(path, upload, c.number) in parts)
    {
      ok := !fails(operations) && |chunks| != 0 && forall c | c in chunks :: PartKey(path, upload, c.number) in parts;
      if ok {
        files := files[key(path) := Assemble(parts, path, upload, chunks)];
      }
      operations, past := operations + 1, past + [files];
      completions := completions + [Completion(path, upload, chunks)];
    }
  }

  // ---------- What a child looks like, against what it held at some earlier point ----------

  /** The same contents everywhere but at one path. */
  ghost predicate SameBut(path: string, a: map<string, Bytes>, b: map<string, Bytes>) {
    forall p | p != path :: (p in a <==> p in b) && (p in a ==> a[p] == b[p])
  }

  /** The content that lay at src can still be read, there or at dst. */
  ghost predicate StillThere(before: map<string, Bytes>, src: string, dst: string, now: map<string, Bytes>) {
    src in before ==> (src in now && now[src] == before[src]) || (dst in now && now[dst] == before[src])
  }

  /** Where a child was: its files, how many operations it had done, how many states it had been through. */
  datatype Mark = Mark(files: map<string, Bytes>, operations: nat, past: nat)

  ghost function MarkOf(c: Child): Mark
    reads c
  {
    Mark(c.files, c.operations, |c.past|)
  }

  ghost predicate Unmoved(c: Child, m: Mark)
    reads c
  {
    MarkOf(c) == m
  }

  /** Since the mark only dst can differ, now and in every state passed through. */
  ghost predicate OnlyDstChanged(c: Child, m: Mark, dstPath: string)
    reads c
  {
    && SameBut(c.key(dstPath), m.files, c.files)
    && m.past <= |c.past| && forall k | m.past <= k < |c.past| :: SameBut(c.key(dstPath), m.files, c.past[k])
  }

  /** What a child holds with the source copied over the destination. */
  ghost function WithCopy(c: Child, m: Mark, srcPath: string, dstPath: string): map<string, Bytes>
    requires c.key(srcPath) in m.files
  {
    m.files[c.key(dstPath) := m.files[c.key(srcPath)]]
  }

  ghost predicate Copied(c: Child, m: Mark, srcPath: string, dstPath: string)
    reads c
  {
    && c.key(srcPath) in m.files && !c.fails(m.operations) && c.operations == m.operations + 1
    && c.files == WithCopy(c, m, srcPath, dstPath)
    && OnlyDstChanged(c, m, dstPath)
  }

  /** Copied, and the copy deleted again unless that one delete failed. */
  ghost predicate CopyUndone(c: Child, m: Mark, srcPath: string, dstPath: string)
    reads c
  {
    && c.key(srcPath) in m.files && !c.fails(m.operations) && c.operations == m.operations + 2
    && c.files == (if c.fails(m.operations + 1) then WithCopy(c, m, srcPath, dstPath) else m.files - {c.key(dstPath)})
    && OnlyDstChanged(c, m, dstPath)
  }

  /** The child whose copy failed: it holds what it held. */
  ghost predicate CopyFailed(c: Child, m: Mark, srcPath: string, dstPath: string)
    reads c
  {
    && (c.fails(m.operations) || c.key(srcPath) !in m.files)
    && c.files == m.files && c.operations == m.operations + 1
    && OnlyDstChanged(c, m, dstPath)
  }

  ghost predicate AlwaysThere(c: Child, m: Mark, srcPath: string, dstPath: string)
    reads c
  {
    && m.past <= |c.past|
    && StillThere(m.files, c.key(srcPath), c.key(dstPath), c.files)
    && forall k | m.past <= k < |c.past| :: StillThere(m.files, c.key(srcPath), c.key(dstPath), c.past[k])
  }

  // ---------- Multipart uploads over several children ----------

  datatype Error =
    | NoStorages
    | NotSyncUpload
    | WrongUploadArity
    | NotSyncChunk
    | WrongChunkArity
    | SpoolFailed
    | ChildFailed

  /** A storage.MultipartUpload: one of this type's own, or some other provider's. */
  datatype Upload = SyncUpload(uploads: seq<nat>) | ForeignUpload

  datatype AnyChunk = SyncChunk(number: int, chunks: seq<Chunk>) | ForeignChunk(number: int)

  datatype Snapshot = Snapshot(files: map<string, Bytes>, parts: map<PartKey, Bytes>, nextUpload: nat,
                               completions: seq<Completion>, aborts: seq<(string, nat)>, operations: nat)

  ghost function SnapshotOf(c: Child): Snapshot
    reads c
  {
    Snapshot(c.files, c.parts, c.nextUpload, c.completions, c.aborts, c.operations)
  }

  ghost predicate Opened(c: Child, m: Snapshot)
    reads c
  {
    !c.fails(m.operations) && SnapshotOf(c) == m.(nextUpload := m.nextUpload + 1, operations := m.operations + 1)
  }

  ghost predicate OpenFailed(c: Child, m: Snapshot)
    reads c
  {
    c.fails(m.operations) && SnapshotOf(c) == m.(operations := m.operations + 1)
  }

  /** The upload just opened was aborted, and none other; its parts are gone unless the abort failed. */
  ghost predicate Aborted(c: Child, m: Snapshot, path: string)
    reads c
  {
    var gone := set k | k in m.parts && k.path == path && k.upload == m.nextUpload;
    && !c.fails(m.operations)
    && SnapshotOf(c) == m.(aborts := m.aborts + [(path, m.nextUpload)], nextUpload := m.nextUpload + 1,
                           parts := if c.fails(m.operations + 1) then m.parts else m.parts - gone,
                           operations := m.operations + 2)
  }

  ghost predicate PartPut(c: Child, m: Snapshot, key: PartKey, body: Bytes)
    reads c
  {
    !c.fails(m.operations) && SnapshotOf(c) == m.(parts := m.parts[key := body], operations := m.operations + 1)
  }

  ghost predicate PartFailed(c: Child, m: Snapshot)
    reads c
  {
    c.fails(m.operations) && SnapshotOf(c) == m.(operations := m.operations + 1)
  }

  /** A child completes an upload of any parts that it has. */
  ghost predicate HasParts(m: Snapshot, path: string, upload: nat, chunks: seq<Chunk>) {
    chunks != [] && forall c | c in chunks :: PartKey(path, upload, c.number) in m.parts
  }

  ghost predicate Completed(c: Child, m: Snapshot, path: string, upload: nat, chunks: seq<Chunk>)
    reads c
  {
    && !c.fails(m.operations) && HasParts(m, path, upload, chunks)
    && SnapshotOf(c) == m.(files := m.files[c.key(path) := Assemble(m.parts, path, upload, chunks)],
                           completions := m.completions + [Completion(path, upload, chunks)],
                           operations := m.operations + 1)
  }

  ghost predicate CompleteFailed(c: Child, m: Snapshot, path: string, upload: nat, chunks: seq<Chunk>)
    reads c
  {
    && (c.fails(m.operations) || !HasParts(m, path, upload, chunks))
    && SnapshotOf(c) == m.(completions := m.completions + [Completion(path, upload, chunks)],
                           operations := m.operations + 1)
  }

  /** The temporary file a body is spooled to; each use of it may fail. */
  class Spool {
    const fails: nat -> bool
    var uses: nat

    constructor (fails: nat -> bool)
    {
      this.fails := fails;
      uses := 0;
    }

    ghost predicate NoneFails(first: nat)
      reads this
    {
      forall n: nat | first <= n < uses :: !fails(n)
    }

    method Use() returns (ok: bool)
      modifies this
      ensures uses == old(uses) + 1 && ok == !fails(old(uses))
    {
      ok := !fails(uses);
      uses := uses + 1;
    }

    /** Create, copy, sync and close, as far as they work. */
    method Fill() returns (ok: bool)
      modifies this
      ensures uses > old(uses) && ok == NoneFails(old(uses))
    {
      ok := Use();
      for i := 0 to 3
        invariant uses > old(uses) && ok == NoneFails(old(uses))
      {
        if ok {
          ok := Use();
        }
      }
    }
  }

  class Sync {
    const storages: seq<Child>

    constructor (storages: seq<Child>)
      ensures this.storages == storages
    {
      this.storages := storages;
    }

    ghost function Marks(): (r: seq<Mark>)
      reads storages
    {
      seq(|storages|, i requires 0 <= i < |storages| reads storages => MarkOf(storages[i]))
    }

    /** After a failed copy: undone below the failing child, untouched above it. */
    ghost predicate RolledBack(k: nat, marks: seq<Mark>, srcPath: string, dstPath: string)
      requires k < |storages| == |marks|
      reads storages
    {
      && (forall j | 0 <= j < k :: CopyUndone(storages[j], marks[j], srcPath, dstPath))
      && CopyFailed(storages[k], marks[k], srcPath, dstPath)
      && (forall j | k < j < |storages| :: Unmoved(storages[j], marks[j]))
    }

    ghost predicate AllCopied(marks: seq<Mark>, srcPath: string, dstPath: string)
      requires |storages| == |marks|
      reads storages
    {
      forall i | 0 <= i < |storages| :: Copied(storages[i], marks[i], srcPath, dstPath)
    }

    /** Copies on every child in turn; after a failure the copies made so far are deleted again. */
    method Copy(srcPath: string, dstPath: string) returns (ok: bool)
      requires Distinct(storages)
      modifies storages
      ensures ok ==> storages != [] && AllCopied(old(Marks()), srcPath, dstPath)
      ensures !ok && storages != [] ==> exists k: nat :: k < |storages| && RolledBack(k, old(Marks()), srcPath, dstPath)
    {
      if |storages| == 0 {
        return false;
      }
      hide Copied, CopyFailed, RolledBack, Unmoved;
      ghost var marks := Marks();
      NothingMoved(marks);
      for i := 0 to |storages|
        invariant forall j | 0 <= j < i :: Copied(storages[j], marks[j], srcPath, dstPath)
        invariant forall j | i <= j < |storages| :: Unmoved(storages[j], marks[j])
      {
        var copied := CopyOn(storages[i], marks[i], srcPath, dstPath);
        if !copied {
          UndoCopies(i, marks, srcPath, dstPath);
          assert RolledBack(i, marks, srcPath, dstPath);
          return false;
        }
      }
      return true;
    }

    lemma NothingMoved(marks: seq<Mark>)
      requires marks == Marks()
      ensures forall j | 0 <= j < |storages| :: Unmoved(storages[j], marks[j])
    {
    }

    method CopyOn(c: Child, ghost m: Mark, srcPath: string, dstPath: string) returns (ok: bool)
      requires Unmoved(c, m)
      modifies c
      ensures if ok then Copied(c, m, srcPath, dstPath) else CopyFailed(c, m, srcPath, dstPath)
    {
      ok := c.Copy(srcPath, dstPath);
    }

    /** Copy's rollback loop over the children before the failing one; failures are only logged. */
    method UndoCopies(failed: nat, ghost marks: seq<Mark>, srcPath: string, dstPath: string)
      requires Distinct(storages) && failed < |storages| == |marks|
      requires forall j | 0 <= j < failed :: Copied(storages[j], marks[j], srcPath, dstPath)
      requires CopyFailed(storages[failed], marks[failed], srcPath, dstPath)
      requires forall j | failed < j < |storages| :: Unmoved(storages[j], marks[j])
      modifies storages
      ensures RolledBack(failed, marks, srcPath, dstPath)
    {
      hide Copied, CopyUndone, CopyFailed, Unmoved;
      for j := 0 to failed
        invariant forall i | 0 <= i < j :: CopyUndone(storages[i], marks[i], srcPath, dstPath)
        invariant forall i | j <= i < failed :: Copied(storages[i], marks[i], srcPath, dstPath)
        invariant CopyFailed(storages[failed], marks[failed], srcPath, dstPath)
        invariant forall i | failed < i < |storages| :: Unmoved(storages[i], marks[i])
      {
        UndoCopy(storages[j], marks[j], srcPath, dstPath);
      }
    }

    method UndoCopy(c: Child, ghost m: Mark, srcPath: string, dstPath: string)
      requires Copied(c, m, srcPath, dstPath)
      modifies c
      ensures CopyUndone(c, m, srcPath, dstPath)
    {
      var deleted := c.DeleteFile(dstPath);
    }

    /** Move: copy everywhere, then delete the sources. Whatever fails and wherever it stops, every child that keeps
        the two paths apart has the content at src or at dst in each state it passes through; on success only at
        dst. A child for which they are one file loses it. */
    method Move(srcPath: string, dstPath: string) returns (ok: bool)
      requires Distinct(storages)
      modifies storages
      ensures srcPath == dstPath ==> ok && forall i | 0 <= i < |storages| :: Unmoved(storages[i], old(Marks())[i])
      ensures srcPath != dstPath ==>
                forall i | 0 <= i < |storages| && Apart(storages[i], srcPath, dstPath) ::
                  AlwaysThere(storages[i], old(Marks())[i], srcPath, dstPath)
      ensures ok && srcPath != dstPath ==>
                storages != []
                && forall i | 0 <= i < |storages| :: Moved(storages[i], old(Marks())[i], srcPath, dstPath)
      ensures !ok && storages != [] ==>
                exists k: nat :: k < |storages| && (RolledBack(k, old(Marks()), srcPath, dstPath)
                                                    || StoppedDeleting(k, old(Marks()), srcPath, dstPath))
    {
      if srcPath == dstPath {
        return true;
      }
      ghost var marks := Marks();
      ok := Copy(srcPath, dstPath);
      if !ok {
        if storages != [] {
          ghost var k: nat :| k < |storages| && RolledBack(k, marks, srcPath, dstPath);
          StillThereAfterRollback(k, marks, srcPath, dstPath);
        }
        return;
      }
      ok := DeleteSources(marks, srcPath, dstPath);
    }

    lemma StillThereAfterRollback(k: nat, marks: seq<Mark>, srcPath: string, dstPath: string)
      requires k < |storages| == |marks| && RolledBack(k, marks, srcPath, dstPath)
      ensures forall i | 0 <= i < |storages| && Apart(storages[i], srcPath, dstPath) ::
                AlwaysThere(storages[i], marks[i], srcPath, dstPath)
    {
      forall i | 0 <= i < |storages|
        ensures OnlyDstChanged(storages[i], marks[i], dstPath)
      {
      }
    }

    /** Move's second loop: the sources go once every child has the copy. */
    method DeleteSources(ghost marks: seq<Mark>, srcPath: string, dstPath: string) returns (ok: bool)
      requires Distinct(storages) && |marks| == |storages| && AllCopied(marks, srcPath, dstPath)
      modifies storages
      ensures if ok then forall i | 0 <= i < |storages| :: Moved(storages[i], marks[i], srcPath, dstPath)
              else exists k: nat :: k < |storages| && StoppedDeleting(k, marks, srcPath, dstPath)
      ensures forall i | 0 <= i < |storages| && Apart(storages[i], srcPath, dstPath) ::
                AlwaysThere(storages[i], marks[i], srcPath, dstPath)
    {
      hide AlwaysThere, Copied, Apart;
      for i := 0 to |storages|
        invariant forall j | 0 <= j < i :: Moved(storages[j], marks[j], srcPath, dstPath)
        invariant forall j | i <= j < |storages| :: Copied(storages[j], marks[j], srcPath, dstPath)
      {
        var deleted := DeleteSource(storages[i], marks[i], srcPath, dstPath);
        if !deleted {
          forall j | i < j < |storages|
            ensures Apart(storages[j], srcPath, dstPath) ==> AlwaysThere(storages[j], marks[j], srcPath, dstPath)
          {
            CopiedIsThere(storages[j], marks[j], srcPath, dstPath);
          }
          assert StoppedDeleting(i, marks, srcPath, dstPath);
          return false;
        }
      }
      return true;
    }

    lemma CopiedIsThere(c: Child, m: Mark, srcPath: string, dstPath: string)
      requires Copied(c, m, srcPath, dstPath)
      ensures Apart(c, srcPath, dstPath) ==> AlwaysThere(c, m, srcPath, dstPath)
    {
    }

    method DeleteSource(c: Child, ghost m: Mark, srcPath: string, dstPath: string) returns (ok: bool)
      requires Copied(c, m, srcPath, dstPath)
      modifies c
      ensures if ok then Moved(c, m, srcPath, dstPath) else DeleteFailed(c, m, srcPath, dstPath)
    {
      CopiedIsThere(c, m, srcPath, dstPath);
      ok := c.DeleteFile(srcPath);
    }

    // ---------- Multipart uploads ----------

    function CastUpload(upload: Upload): (err: Option<Error>) {
      if upload.ForeignUpload? then Some(NotSyncUpload)
      else if |upload.uploads| != |storages| then Some(WrongUploadArity)
      else None
    }

    ghost function Snapshots(): (r: seq<Snapshot>)
      reads storages
    {
      seq(|storages|, i requires 0 <= i < |storages| reads storages => SnapshotOf(storages[i]))
    }

    /** Opens an upload on every child, in order; when one fails, those opened before it are aborted. */
    method CreateMultipartUpload(path: string) returns (r: Result<Upload, Error>)
      requires Distinct(storages)
      modifies storages
      ensures storages == [] ==> r == Err(NoStorages)
      ensures r.Ok? ==> r.value.SyncUpload? && CastUpload(r.value).None?
                        && forall i | 0 <= i < |storages| :: r.value.uploads[i] == old(Snapshots())[i].nextUpload
                                                              && Opened(storages[i], old(Snapshots())[i])
      ensures r.Err? && storages != [] ==> exists k: nat :: k < |storages| && CreateUndone(k, old(Snapshots()), path)
    {
      if |storages| == 0 {
        return Err(NoStorages);
      }
      hide SnapshotOf, Opened, OpenFailed, CreateUndone;
      ghost var snapshots := Snapshots();
      var uploads: seq<nat> := [];
      for i := 0 to |storages|
        invariant |uploads| == i
        invariant forall j | 0 <= j < i :: uploads[j] == snapshots[j].nextUpload && Opened(storages[j], snapshots[j])
        invariant forall j | i <= j < |storages| :: SnapshotOf(storages[j]) == snapshots[j]
      {
        var upload := OpenUpload(storages[i], snapshots[i], path);
        if upload.None? {
          AbortOpened(i, snapshots, path, uploads);
          assert CreateUndone(i, snapshots, path);
          return Err(ChildFailed);
        }
        uploads := uploads + [upload.value];
      }
      return Ok(SyncUpload(uploads));
    }

    /** The rollback loop of CreateMultipartUpload; failures are only logged. */
    method AbortOpened(failed: nat, ghost snapshots: seq<Snapshot>, path: string, uploads: seq<nat>)
      requires Distinct(storages) && failed < |storages| == |snapshots| && failed == |uploads|
      requires forall j | 0 <= j < failed :: uploads[j] == snapshots[j].nextUpload && Opened(storages[j], snapshots[j])
      requires OpenFailed(storages[failed], snapshots[failed])
      requires forall j | failed < j < |storages| :: SnapshotOf(storages[j]) == snapshots[j]
      modifies storages
      ensures CreateUndone(failed, snapshots, path)
    {
      hide SnapshotOf, Opened, OpenFailed, Aborted;
      for j := 0 to failed
        invariant forall l | 0 <= l < j :: Aborted(storages[l], snapshots[l], path)
        invariant forall l | j <= l < failed :: Opened(storages[l], snapshots[l])
        invariant OpenFailed(storages[failed], snapshots[failed])
        invariant forall l | failed < l < |storages| :: SnapshotOf(storages[l]) == snapshots[l]
      {
        AbortUpload(storages[j], snapshots[j], path, uploads[j]);
      }
    }

    ghost predicate CreateUndone(k: nat, snapshots: seq<Snapshot>, path: string)
      requires k < |storages| == |snapshots|
      reads storages
    {
      && (forall j | 0 <= j < k :: Aborted(storages[j], snapshots[j], path))
      && OpenFailed(storages[k], snapshots[k])
      && (forall j | k < j < |storages| :: SnapshotOf(storages[j]) == snapshots[j])
    }

    /** Spools the body and uploads it to every child under the child's own upload; there is no rollback. */
    method UploadMultipartChunk(path: string, upload: Upload, number: int, body: Bytes, spool: Spool)
      returns (r: Result<AnyChunk, Error>)
      requires Distinct(storages)
      modifies storages, spool
      ensures spool.uses >= old(spool.uses)
      ensures storages == [] ==> r == Err(NoStorages)
      ensures storages != [] && upload.ForeignUpload? ==> r == Err(NotSyncUpload)
      ensures storages != [] && upload.SyncUpload? && |upload.uploads| != |storages| ==> r == Err(WrongUploadArity)
      ensures storages != [] && CastUpload(upload).Some? ==> r == Err(CastUpload(upload).value)
      ensures storages == [] || CastUpload(upload).Some? ==>
                forall i | 0 <= i < |storages| :: SnapshotOf(storages[i]) == old(Snapshots())[i]
      ensures r.Ok? ==> upload.SyncUpload? && ChunkFits(r.value) && r.value.number == number
                        && spool.NoneFails(old(spool.uses))
                        && forall i | 0 <= i < |storages| ::
                             r.value.chunks[i].number == number
                             && PartPut(storages[i], old(Snapshots())[i], PartKey(path, upload.uploads[i], number),
                                        body)
      ensures r.Err? && storages != [] && CastUpload(upload).None? ==>
                UploadStopped(old(Snapshots()), path, upload.uploads, number, body, !spool.NoneFails(old(spool.uses)))
    {
      if |storages| == 0 {
        return Err(NoStorages);
      }
      var err := CastUpload(upload);
      if err.Some? {
        return Err(err.value);
      }
      ghost var snapshots := Snapshots();
      NothingPut(snapshots, path, upload.uploads, number, body);
      hide SnapshotOf, PartPut, PutUpTo, UploadStopped;
      var spooled := spool.Fill();
      if !spooled {
        StopsAt(0, snapshots, path, upload.uploads, number, body, true);
        return Err(SpoolFailed);
      }
      r := PutEverywhere(path, upload.uploads, number, body, spool, snapshots, old(spool.uses));
      if r.Ok? {
        PutOnAll(snapshots, path, upload.uploads, number, body);
      }
    }

    /** The loop over the children, each of which reads the spool anew. */
    method PutEverywhere(path: string, uploads: seq<nat>, number: int, body: Bytes, spool: Spool,
                         ghost snapshots: seq<Snapshot>, ghost first: nat)
      returns (r: Result<AnyChunk, Error>)
      requires Distinct(storages) && |storages| == |snapshots| == |uploads|
      requires PutUpTo(0, snapshots, path, uploads, number, body) && first <= spool.uses && spool.NoneFails(first)
      modifies storages, spool
      ensures spool.uses >= old(spool.uses)
      ensures match r
              case Ok(chunk) =>
                && ChunkFits(chunk) && chunk.number == number && spool.NoneFails(first)
                && (forall i | 0 <= i < |storages| :: chunk.chunks[i].number == number)
                && PutUpTo(|storages|, snapshots, path, uploads, number, body)
              case Err(_) => UploadStopped(snapshots, path, uploads, number, body, !spool.NoneFails(first))
    {
      hide PutUpTo, PutFailedAt, UploadStopped;
      var chunks: seq<Chunk> := [];
      for i := 0 to |storages|
        invariant |chunks| == i && forall j | 0 <= j < i :: chunks[j].number == number
        invariant PutUpTo(i, snapshots, path, uploads, number, body)
        invariant spool.uses >= old(spool.uses) && spool.NoneFails(first)
      {
        var readable := spool.Use();
        if !readable {
          StopsAt(i, snapshots, path, uploads, number, body, true);
          return Err(SpoolFailed);
        }
        var chunk := PutOnNext(i, snapshots, path, uploads, number, body);
        var closed := spool.Use();
        if chunk.None? {
          StopsAt(i, snapshots, path, uploads, number, body, !closed);
          return Err(ChildFailed);
        }
        if !closed {
          StopsAt(i + 1, snapshots, path, uploads, number, body, true);
          return Err(SpoolFailed);
        }
        chunks := chunks + [chunk.value];
      }
      return Ok(SyncChunk(number, chunks));
    }

    lemma NothingPut(snapshots: seq<Snapshot>, path: string, uploads: seq<nat>, number: int, body: Bytes)
      requires |uploads| == |storages| && snapshots == Snapshots()
      ensures PutUpTo(0, snapshots, path, uploads, number, body)
    {
    }

    lemma StopsAt(k: nat, snapshots: seq<Snapshot>, path: string, uploads: seq<nat>, number: int, body: Bytes,
                  spoolFailed: bool)
      requires |storages| == |snapshots| == |uploads|
      requires || (k < |storages| && PutFailedAt(k, snapshots, path, uploads, number, body))
               || (k <= |storages| && spoolFailed && PutUpTo(k, snapshots, path, uploads, number, body))
      ensures UploadStopped(snapshots, path, uploads, number, body, spoolFailed)
    {
      hide PutFailedAt, PutUpTo;
      assert PutStopped(k, snapshots, path, uploads, number, body, spoolFailed);
    }

    method PutOnNext(i: nat, ghost snapshots: seq<Snapshot>, path: string, uploads: seq<nat>, number: int, body: Bytes)
      returns (chunk: Option<Chunk>)
      requires Distinct(storages) && i < |storages| == |snapshots| == |uploads|
      requires PutUpTo(i, snapshots, path, uploads, number, body)
      modifies storages[i]
      ensures if chunk.Some? then chunk.value.number == number && PutUpTo(i + 1, snapshots, path, uploads, number, body)
              else PutFailedAt(i, snapshots, path, uploads, number, body)
    {
      hide SnapshotOf, PartPut, PartFailed;
      chunk := PutPart(storages[i], snapshots[i], path, uploads[i], number, body);
    }

    lemma PutOnAll(snapshots: seq<Snapshot>, path: string, uploads: seq<nat>, number: int, body: Bytes)
      requires |storages| == |snapshots| == |uploads| && PutUpTo(|storages|, snapshots, path, uploads, number, body)
      ensures forall i | 0 <= i < |storages| ::
                PartPut(storages[i], snapshots[i], PartKey(path, uploads[i], number), body)
    {
    }

    predicate ChunkFits(chunk: AnyChunk) {
      chunk.SyncChunk? && |chunk.chunks| == |storages|
    }

    predicate AllFit(chunks: seq<AnyChunk>) {
      forall k | 0 <= k < |chunks| :: ChunkFits(chunks[k])
    }

    /** What is wrong with the first chunk that does not fit. */
    function CastChunks(chunks: seq<AnyChunk>): Option<Error> {
      if chunks == [] then None
      else if chunks[0].ForeignChunk? then Some(NotSyncChunk)
      else if |chunks[0].chunks| != |storages| then Some(WrongChunkArity)
      else CastChunks(chunks[1..])
    }

    lemma {:induction false} CastsExactlyFitting(chunks: seq<AnyChunk>)
      ensures CastChunks(chunks).None? <==> AllFit(chunks)
    {
      if chunks != [] && ChunkFits(chunks[0]) {
        CastsExactlyFitting(chunks[1..]);
        assert AllFit(chunks) <==> AllFit(chunks[1..]) by {
          assert forall k | 0 <= k < |chunks| - 1 :: chunks[1..][k] == chunks[k + 1];
          if AllFit(chunks[1..]) {
            forall k | 0 <= k < |chunks|
              ensures ChunkFits(chunks[k])
            {
              assert k > 0 ==> ChunkFits(chunks[1..][k - 1]);
            }
          }
        }
      }
    }

    /** The first k children have the part, the others are as they were. */
    ghost predicate PutUpTo(k: nat, snapshots: seq<Snapshot>, path: string, uploads: seq<nat>, number: int, body: Bytes)
      requires k <= |storages| == |snapshots| == |uploads|
      reads storages
    {
      && (forall i | 0 <= i < k :: PartPut(storages[i], snapshots[i], PartKey(path, uploads[i], number), body))
      && (forall i | k <= i < |storages| :: SnapshotOf(storages[i]) == snapshots[i])
    }

    /** The k-th child's operation failed: those before it have the part, those after it are as they were. */
    ghost predicate PutFailedAt(k: nat, snapshots: seq<Snapshot>, path: string, uploads: seq<nat>, number: int,
                                body: Bytes)
      requires k < |storages| == |snapshots| == |uploads|
      reads storages
    {
      && (forall i | 0 <= i < k :: PartPut(storages[i], snapshots[i], PartKey(path, uploads[i], number), body))
      && PartFailed(storages[k], snapshots[k])
      && (forall i | k < i < |storages| :: SnapshotOf(storages[i]) == snapshots[i])
    }

    /** The upload of a chunk stopped at the k-th child, by a failure of the child or of the spool. */
    ghost predicate PutStopped(k: nat, snapshots: seq<Snapshot>, path: string, uploads: seq<nat>, number: int,
                               body: Bytes, spoolFailed: bool)
      requires |storages| == |snapshots| == |uploads|
      reads storages
    {
      || (k < |storages| && PutFailedAt(k, snapshots, path, uploads, number, body))
      || (k <= |storages| && spoolFailed && PutUpTo(k, snapshots, path, uploads, number, body))
    }

    ghost predicate UploadStopped(snapshots: seq<Snapshot>, path: string, uploads: seq<nat>, number: int, body: Bytes,
                                  spoolFailed: bool)
      requires |storages| == |snapshots| == |uploads|
      reads storages
    {
      exists k: nat :: PutStopped(k, snapshots, path, uploads, number, body, spoolFailed)
    }

    /** The entries of one child, in the caller's order. */
    function EntriesOf(chunks: seq<AnyChunk>, i: nat): seq<Chunk>
      requires i < |storages| && AllFit(chunks)
    {
      seq(|chunks|, k requires 0 <= k < |chunks| => chunks[k].chunks[i])
    }

    /** The part behind a child's entry is the given body. */
    ghost predicate HasPart(m: Snapshot, path: string, upload: nat, entry: Chunk, body: Bytes) {
      var key := PartKey(path, upload, entry.number);
      key in m.parts && m.parts[key] == body
    }

    /** The first k children have completed the upload, each from its own entries; the others are as they were. */
    ghost predicate CompletedUpTo(k: nat, snapshots: seq<Snapshot>, path: string, uploads: seq<nat>,
                                  chunks: seq<AnyChunk>)
      requires k <= |storages| == |snapshots| == |uploads|
      requires AllFit(chunks)
      reads storages
    {
      && (forall i | 0 <= i < k :: Completed(storages[i], snapshots[i], path, uploads[i], EntriesOf(chunks, i)))
      && (forall i | k <= i < |storages| :: SnapshotOf(storages[i]) == snapshots[i])
    }

    ghost predicate StoppedAt(k: nat, snapshots: seq<Snapshot>, path: string, uploads: seq<nat>, chunks: seq<AnyChunk>)
      requires k < |storages| == |snapshots| == |uploads|
      requires AllFit(chunks)
      reads storages
    {
      && (forall i | 0 <= i < k :: Completed(storages[i], snapshots[i], path, uploads[i], EntriesOf(chunks, i)))
      && CompleteFailed(storages[k], snapshots[k], path, uploads[k], EntriesOf(chunks, k))
      && (forall i | k < i < |storages| :: SnapshotOf(storages[i]) == snapshots[i])
    }

    /** Completes on every child with that child's upload and that child's entries. A wrong upload or a wrong chunk
        is found before any child is asked; the first child that fails ends the loop. */
    method CompleteMultipartUpload(path: string, upload: Upload, chunks: seq<AnyChunk>) returns (err: Option<Error>)
      requires Distinct(storages)
      modifies storages
      ensures upload.ForeignUpload? ==> err == Some(NotSyncUpload)
      ensures upload.SyncUpload? && |upload.uploads| != |storages| ==> err == Some(WrongUploadArity)
      ensures CastUpload(upload).Some? ==> err == CastUpload(upload)
      ensures CastUpload(upload).Some? || !AllFit(chunks) ==>
                forall i | 0 <= i < |storages| :: SnapshotOf(storages[i]) == old(Snapshots())[i]
      ensures CastUpload(upload).None? && storages != [] && !AllFit(chunks) ==> err == CastChunks(chunks)
      ensures CastUpload(upload).None? && AllFit(chunks) ==>
                if err.None? then CompletedUpTo(|storages|, old(Snapshots()), path, upload.uploads, chunks)
                else exists k: nat :: k < |storages| && StoppedAt(k, old(Snapshots()), path, upload.uploads, chunks)
    {
      err := CastUpload(upload);
      if err.Some? {
        return;
      }
      hide SnapshotOf, Completed, CompleteFailed;
      ghost var snapshots := Snapshots();
      for i := 0 to |storages|
        invariant i > 0 ==> AllFit(chunks)
        invariant i == 0 ==> forall j | 0 <= j < |storages| :: SnapshotOf(storages[j]) == snapshots[j]
        invariant i > 0 ==> CompletedUpTo(i, snapshots, path, upload.uploads, chunks)
      {
        var childChunks;
        childChunks, err := ChildChunks(chunks, i);
        if err.Some? {
          return;
        }
        var ok := CompleteNext(i, snapshots, path, upload.uploads, chunks, childChunks);
        if !ok {
          return Some(ChildFailed);
        }
      }
      return None;
    }

    /** Asks the next child. */
    method CompleteNext(i: nat, ghost snapshots: seq<Snapshot>, path: string, uploads: seq<nat>,
                        ghost chunks: seq<AnyChunk>, childChunks: seq<Chunk>)
      returns (ok: bool)
      requires Distinct(storages) && i < |storages| == |snapshots| == |uploads| && AllFit(chunks)
      requires CompletedUpTo(i, snapshots, path, uploads, chunks) && childChunks == EntriesOf(chunks, i)
      modifies storages[i]
      ensures if ok then CompletedUpTo(i + 1, snapshots, path, uploads, chunks)
              else StoppedAt(i, snapshots, path, uploads, chunks)
    {
      hide SnapshotOf, Completed, CompleteFailed, EntriesOf;
      ok := CompleteChild(storages[i], snapshots[i], path, uploads[i], childChunks);
    }

    /** One child's entries, or what is wrong with the first chunk that does not fit. */
    method ChildChunks(chunks: seq<AnyChunk>, i: nat) returns (childChunks: seq<Chunk>, err: Option<Error>)
      requires i < |storages|
      ensures err == CastChunks(chunks) && (err.None? <==> AllFit(chunks))
      ensures err.None? ==> childChunks == EntriesOf(chunks, i)
    {
      CastsExactlyFitting(chunks);
      childChunks, err := [], None;
      for k := 0 to |chunks|
        invariant |childChunks| == k && CastChunks(chunks) == CastChunks(chunks[k..])
        invariant forall l | 0 <= l < k :: ChunkFits(chunks[l]) && childChunks[l] == chunks[l].chunks[i]
      {
        if chunks[k].ForeignChunk? {
          return childChunks, Some(NotSyncChunk);
        }
        if |chunks[k].chunks| != |storages| {
          return childChunks, Some(WrongChunkArity);
        }
        childChunks := childChunks + [chunks[k].chunks[i]];
      }
    }

    /** The deletes stopped at the k-th child: done before it, the copy kept from it on. */
    ghost predicate StoppedDeleting(k: nat, marks: seq<Mark>, srcPath: string, dstPath: string)
      requires k < |storages| == |marks|
      reads storages
    {
      && (forall j | 0 <= j < k :: Moved(storages[j], marks[j], srcPath, dstPath))
      && DeleteFailed(storages[k], marks[k], srcPath, dstPath)
      && (forall j | k < j < |storages| :: Copied(storages[j], marks[j], srcPath, dstPath))
    }
  }

  /** Different places for the two paths. */
  predicate Apart(c: Child, srcPath: string, dstPath: string) {
    c.key(srcPath) != c.key(dstPath)
  }

  ghost predicate Moved(c: Child, m: Mark, srcPath: string, dstPath: string)
    reads c
  {
    && c.key(srcPath) in m.files && !c.fails(m.operations) && !c.fails(m.operations + 1)
    && c.operations == m.operations + 2
    && c.files == WithCopy(c, m, srcPath, dstPath) - {c.key(srcPath)}
    && (Apart(c, srcPath, dstPath) ==> AlwaysThere(c, m, srcPath, dstPath))
  }

  ghost predicate DeleteFailed(c: Child, m: Mark, srcPath: string, dstPath: string)
    reads c
  {
    && c.key(srcPath) in m.files && !c.fails(m.operations) && c.fails(m.operations + 1)
    && c.operations == m.operations + 2
    && c.files == WithCopy(c, m, srcPath, dstPath)
    && (Apart(c, srcPath, dstPath) ==> AlwaysThere(c, m, srcPath, dstPath))
  }

  /** The content of the source lies at the destination. */
  ghost predicate Arrived(c: Child, m: Mark, srcPath: string, dstPath: string)
    reads c
  {
    && c.key(srcPath) in m.files && c.key(dstPath) in c.files
    && c.files[c.key(dstPath)] == m.files[c.key(srcPath)]
  }

  /** A child that took part in a successful move of different paths has the content at the destination exactly when
      it keeps the two paths apart; otherwise it has lost it. */
  lemma ArrivesExactlyWhenApart(c: Child, m: Mark, srcPath: string, dstPath: string)
    requires Moved(c, m, srcPath, dstPath)
    ensures Arrived(c, m, srcPath, dstPath) <==> Apart(c, srcPath, dstPath)
    ensures c.key(srcPath) !in c.files
    ensures !Apart(c, srcPath, dstPath) ==> c.files == m.files - {c.key(srcPath)}
  {
    if !Apart(c, srcPath, dstPath) {
      assert WithCopy(c, m, srcPath, dstPath) == m.files;
    }
  }

  /** A child whose copy was undone still has the source, as it was, exactly when it keeps the two paths apart. */
  lemma RollbackKeepsExactlyWhenApart(c: Child, m: Mark, srcPath: string, dstPath: string)
    requires CopyUndone(c, m, srcPath, dstPath) && !c.fails(m.operations + 1)
    ensures c.key(srcPath) in c.files <==> Apart(c, srcPath, dstPath)
    ensures Apart(c, srcPath, dstPath) ==> c.files[c.key(srcPath)] == m.files[c.key(srcPath)]
  {
  }

  /** How a disk reads a path, as far as a leading "./" goes. */
  function WithoutDot(path: string): string {
    if "./" <= path then path[2..] else path
  }

  lemma OneFileTwoSpellings()
    ensures WithoutDot("a.txt") == "a.txt" == WithoutDot("./a.txt")
  {
    assert "a.txt"[0] != "./"[0];
    assert "./a.txt"[..2] == "./" && "./a.txt"[2..] == "a.txt";
  }

  /** The failing input: when moving "a.txt" to "./a.txt" on such a child works, the file is gone. */
  lemma MoveToOtherSpellingLoses(c: Child, m: Mark, content: Bytes)
    requires c.key == WithoutDot && m.files == map["a.txt" := content] && Moved(c, m, "a.txt", "./a.txt")
    ensures c.files == map[]
  {
    OneFileTwoSpellings();
    ArrivesExactlyWhenApart(c, m, "a.txt", "./a.txt");
  }

  /** And it works, on every such child that does not fail. */
  method MoveToOtherSpelling(s: Sync, content: Bytes) returns (ok: bool)
    requires Distinct(s.storages) && s.storages != []
    requires forall i | 0 <= i < |s.storages| ::
               && s.storages[i].key == WithoutDot && s.storages[i].files == map["a.txt" := content]
               && forall n: nat :: !s.storages[i].fails(n)
    modifies s.storages
    ensures ok && forall i | 0 <= i < |s.storages| :: s.storages[i].files == map[]
  {
    hide Moved, CopyFailed, CopyUndone, DeleteFailed;
    OneFileTwoSpellings();
    ghost var marks := s.Marks();
    ok := s.Move("a.txt", "./a.txt");
    forall i | 0 <= i < |s.storages|
      ensures !CopyFailed(s.storages[i], marks[i], "a.txt", "./a.txt")
      ensures !DeleteFailed(s.storages[i], marks[i], "a.txt", "./a.txt")
      ensures Moved(s.storages[i], marks[i], "a.txt", "./a.txt") ==> s.storages[i].files == map[]
    {
      NothingFailed(s.storages[i], marks[i], "a.txt", "./a.txt");
      if Moved(s.storages[i], marks[i], "a.txt", "./a.txt") {
        MoveToOtherSpellingLoses(s.storages[i], marks[i], content);
      }
    }
  }

  lemma NothingFailed(c: Child, m: Mark, srcPath: string, dstPath: string)
    requires c.key(srcPath) in m.files && forall n: nat :: !c.fails(n)
    ensures !CopyFailed(c, m, srcPath, dstPath) && !DeleteFailed(c, m, srcPath, dstPath)
  {
  }

  // ---------- One child's part of a multipart upload ----------

  method OpenUpload(c: Child, ghost m: Snapshot, path: string) returns (upload: Option<nat>)
    requires SnapshotOf(c) == m
    modifies c
    ensures upload == if c.fails(old(c.operations)) then None else Some(m.nextUpload)
    ensures if upload.Some? then Opened(c, m) else OpenFailed(c, m)
  {
    upload := c.CreateMultipartUpload(path);
  }

  method AbortUpload(c: Child, ghost m: Snapshot, path: string, upload: nat)
    requires Opened(c, m) && upload == m.nextUpload
    modifies c
    ensures Aborted(c, m, path)
  {
    var ok := c.AbortMultipartUpload(path, upload);
  }

  method PutPart(c: Child, ghost m: Snapshot, path: string, upload: nat, number: int, body: Bytes)
    returns (chunk: Option<Chunk>)
    requires SnapshotOf(c) == m
    modifies c
    ensures if chunk.Some? then chunk.value.number == number && PartPut(c, m, PartKey(path, upload, number), body)
            else PartFailed(c, m)
  {
    chunk := c.UploadMultipartChunk(path, upload, number, body);
  }

  method CompleteChild(c: Child, ghost m: Snapshot, path: string, upload: nat, chunks: seq<Chunk>) returns (ok: bool)
    requires SnapshotOf(c) == m
    modifies c
    ensures if ok then Completed(c, m, path, upload, chunks) else CompleteFailed(c, m, path, upload, chunks)
  {
    ok := c.CompleteMultipartUpload(path, upload, chunks);
  }

  // ---------- Every replica gets the same bytes ----------

  /** If the parts behind a child's entries are the given bodies, the child assembles those bodies in order. */
  lemma {:induction false} AssembleIsFlatten(parts: map<PartKey, Bytes>, path: string, upload: nat,
                                             chunks: seq<Chunk>, bodies: seq<Bytes>)
    requires |chunks| == |bodies|
    requires forall k | 0 <= k < |chunks| ::
               var key := PartKey(path, upload, chunks[k].number); key in parts && parts[key] == bodies[k]
    ensures Assemble(parts, path, upload, chunks) == Flatten(bodies)
  {
    if chunks != [] {
      AssembleIsFlatten(parts, path, upload, chunks[1..], bodies[1..]);
    }
  }

  ghost predicate HoldsAt(c: Child, path: string, content: Bytes)
    reads c
  {
    c.key(path) in c.files && c.files[c.key(path)] == content
  }

  /** After a completed upload whose chunks carried the same bodies to every child, all children hold the
      concatenation of the bodies in the caller's order. */
  lemma ReplicasAgree(s: Sync, snapshots: seq<Snapshot>, path: string, uploads: seq<nat>, chunks: seq<AnyChunk>,
                      bodies: seq<Bytes>)
    requires |uploads| == |snapshots| == |s.storages| && |chunks| == |bodies|
    requires s.AllFit(chunks)
    requires s.CompletedUpTo(|s.storages|, snapshots, path, uploads, chunks)
    requires forall i, k | 0 <= i < |s.storages| && 0 <= k < |chunks| ::
               s.HasPart(snapshots[i], path, uploads[i], s.EntriesOf(chunks, i)[k], bodies[k])
    ensures forall i | 0 <= i < |s.storages| ::
              HoldsAt(s.storages[i], path, Flatten(bodies))
  {
    forall i | 0 <= i < |s.storages|
      ensures HoldsAt(s.storages[i], path, Flatten(bodies))
    {
      assert Completed(s.storages[i], snapshots[i], path, uploads[i], s.EntriesOf(chunks, i));
      forall k | 0 <= k < |chunks|
        ensures var key := PartKey(path, uploads[i], s.EntriesOf(chunks, i)[k].number);
                key in snapshots[i].parts && snapshots[i].parts[key] == bodies[k]
      {
        assert s.HasPart(snapshots[i], path, uploads[i], s.EntriesOf(chunks, i)[k], bodies[k]);
      }
      AssembleIsFlatten(snapshots[i].parts, path, uploads[i], s.EntriesOf(chunks, i), bodies);
    }
  }

  // ---------- A whole upload ----------

  /** What every child has after some chunks, and the chunks as they were handed back. */
  ghost predicate Stored(s: Sync, m: seq<Snapshot>, path: string, uploads: seq<nat>, numbers: seq<int>,
                         bodies: seq<Bytes>, chunks: seq<AnyChunk>)
    requires |chunks| <= |numbers| == |bodies| && |uploads| == |s.storages| == |m|
  {
    && s.AllFit(chunks)
    && (forall i, j | 0 <= i < |m| && 0 <= j < |chunks| ::
          ChildHas(m[i], path, uploads[i], chunks[j].chunks[i], numbers[j], bodies[j]))
  }

  ghost predicate ChildHas(m: Snapshot, path: string, upload: nat, entry: Chunk, number: int, body: Bytes) {
    var key := PartKey(path, upload, number);
    entry.number == number && key in m.parts && m.parts[key] == body
  }

  lemma NothingStored(s: Sync, m: seq<Snapshot>, path: string, uploads: seq<nat>, numbers: seq<int>, bodies: seq<Bytes>)
    requires |numbers| == |bodies| && |uploads| == |s.storages| == |m|
    ensures Stored(s, m, path, uploads, numbers, bodies, [])
  {
  }

  /** No child operation from the given ones on has failed. */
  ghost predicate QuietIn(s: Sync, m: seq<Snapshot>, operations: seq<nat>)
    requires |operations| == |s.storages| == |m|
  {
    forall i | 0 <= i < |m| :: QuietChild(s.storages[i], m[i], operations[i])
  }

  ghost predicate QuietChild(c: Child, m: Snapshot, first: nat) {
    first <= m.operations && forall n: nat | first <= n < m.operations :: !c.fails(n)
  }

  ghost predicate Quiet(s: Sync, operations: seq<nat>)
    requires |operations| == |s.storages|
    reads s.storages
  {
    QuietIn(s, s.Snapshots(), operations)
  }

  ghost function Operations(s: Sync): (r: seq<nat>)
    reads s.storages
  {
    seq(|s.storages|, i requires 0 <= i < |s.storages| reads s.storages => s.storages[i].operations)
  }

  lemma PutIsQuiet(s: Sync, before: seq<Snapshot>, operations: seq<nat>, path: string, uploads: seq<nat>, number: int,
                   body: Bytes)
    requires |operations| == |s.storages| == |before| == |uploads| && QuietIn(s, before, operations)
    requires forall i | 0 <= i < |before| :: PartPut(s.storages[i], before[i], PartKey(path, uploads[i], number), body)
    ensures Quiet(s, operations)
  {
    forall i | 0 <= i < |before|
      ensures QuietChild(s.storages[i], s.Snapshots()[i], operations[i])
    {
      assert PartPut(s.storages[i], before[i], PartKey(path, uploads[i], number), body);
      assert QuietChild(s.storages[i], before[i], operations[i]);
    }
  }

  lemma FailedIsNotQuiet(s: Sync, before: seq<Snapshot>, operations: seq<nat>, path: string, uploads: seq<nat>,
                         number: int, body: Bytes, spoolFailed: bool)
    requires |operations| == |s.storages| == |before| == |uploads| && QuietIn(s, before, operations)
    requires s.UploadStopped(before, path, uploads, number, body, spoolFailed)
    ensures spoolFailed || !Quiet(s, operations)
  {
    if !spoolFailed {
      var k: nat :| s.PutStopped(k, before, path, uploads, number, body, spoolFailed);
      assert PartFailed(s.storages[k], before[k]) && QuietChild(s.storages[k], before[k], operations[k]);
      assert !QuietChild(s.storages[k], s.Snapshots()[k], operations[k]);
    }
  }

  /** One more chunk, under a number of its own, leaves the parts already there alone. */
  lemma StoredMore(s: Sync, before: seq<Snapshot>, path: string, uploads: seq<nat>, numbers: seq<int>,
                   bodies: seq<Bytes>, chunks: seq<AnyChunk>, chunk: AnyChunk)
    requires |chunks| < |numbers| == |bodies| && Distinct(numbers) && |uploads| == |s.storages| == |before|
    requires Stored(s, before, path, uploads, numbers, bodies, chunks) && s.ChunkFits(chunk)
    requires forall i | 0 <= i < |before| ::
               && chunk.chunks[i].number == numbers[|chunks|]
               && PartPut(s.storages[i], before[i], PartKey(path, uploads[i], numbers[|chunks|]), bodies[|chunks|])
    ensures Stored(s, s.Snapshots(), path, uploads, numbers, bodies, chunks + [chunk])
  {
    var (n, m) := (|chunks|, s.Snapshots());
    forall i, j | 0 <= i < |m| && 0 <= j <= n
      ensures ChildHas(m[i], path, uploads[i], (chunks + [chunk])[j].chunks[i], numbers[j], bodies[j])
    {
      assert PartPut(s.storages[i], before[i], PartKey(path, uploads[i], numbers[n]), bodies[n]);
      assert j < n ==> ChildHas(before[i], path, uploads[i], chunks[j].chunks[i], numbers[j], bodies[j]);
    }
  }

  method StoreChunk(s: Sync, path: string, upload: Upload, numbers: seq<int>, bodies: seq<Bytes>, chunks: seq<AnyChunk>,
                    spool: Spool, ghost operations: seq<nat>, ghost first: nat)
    returns (chunk: Result<AnyChunk, Error>)
    requires |operations| == |s.storages| && Quiet(s, operations) && first <= spool.uses && spool.NoneFails(first)
    requires Distinct(s.storages) && s.storages != [] && s.CastUpload(upload).None?
    requires |chunks| < |numbers| == |bodies| && Distinct(numbers)
    requires Stored(s, s.Snapshots(), path, upload.uploads, numbers, bodies, chunks)
    modifies s.storages, spool
    ensures chunk.Ok? ==> Stored(s, s.Snapshots(), path, upload.uploads, numbers, bodies, chunks + [chunk.value])
                          && Quiet(s, operations) && first <= spool.uses && spool.NoneFails(first)
    ensures chunk.Err? ==> !Quiet(s, operations) || !spool.NoneFails(first)
  {
    hide Stored, QuietIn, SnapshotOf, PartPut, Sync.UploadStopped, Sync.PutStopped;
    ghost var (before, uses) := (s.Snapshots(), spool.uses);
    var n := |chunks|;
    chunk := s.UploadMultipartChunk(path, upload, numbers[n], bodies[n], spool);
    if chunk.Ok? {
      StoredMore(s, before, path, upload.uploads, numbers, bodies, chunks, chunk.value);
      PutIsQuiet(s, before, operations, path, upload.uploads, numbers[n], bodies[n]);
    } else {
      FailedIsNotQuiet(s, before, operations, path, upload.uploads, numbers[n], bodies[n], !spool.NoneFails(uses));
    }
  }

  /** A whole upload as a caller makes it: opened, given its chunks, and completed in whatever order the caller wants
      them. It works exactly when there is a child, a chunk is asked for, and no operation of a child and no use of
      the spool fails; then every child has those bodies in that order, under its own upload. */
  method UploadAll(s: Sync, path: string, numbers: seq<int>, bodies: seq<Bytes>, order: seq<nat>, spool: Spool)
    returns (ok: bool)
    requires Distinct(s.storages) && |numbers| == |bodies| && Distinct(numbers)
    requires forall k | k in order :: k < |bodies|
    modifies s.storages, spool
    ensures ok <==> s.storages != [] && order != [] && Quiet(s, old(Operations(s))) && spool.NoneFails(old(spool.uses))
    ensures ok ==> forall i | 0 <= i < |s.storages| :: HoldsAt(s.storages[i], path, Flatten(Picked(bodies, order)))
  {
    hide Opened, CompleteFailed, Completed, Quiet, Stored, HoldsAt, Flatten;
    ghost var (operations, first) := (Operations(s), spool.uses);
    ghost var start := s.Snapshots();
    var begun := s.CreateMultipartUpload(path);
    if |s.storages| == 0 {
      return false;
    }
    CreatedQuietly(s, start, operations, path, begun);
    if begun.Err? {
      return false;
    }
    var upload := begun.value;
    var chunks: seq<AnyChunk> := [];
    NothingStored(s, s.Snapshots(), path, upload.uploads, numbers, bodies);
    for n := 0 to |numbers|
      invariant |chunks| == n && Stored(s, s.Snapshots(), path, upload.uploads, numbers, bodies, chunks)
      invariant Quiet(s, operations) && first <= spool.uses && spool.NoneFails(first)
    {
      var chunk := StoreChunk(s, path, upload, numbers, bodies, chunks, spool, operations, first);
      if chunk.Err? {
        return false;
      }
      chunks := chunks + [chunk.value];
    }
    ok := CompleteStored(s, path, upload, numbers, bodies, chunks, order, operations);
  }

  /** The completion of an upload whose chunks have all been stored. */
  method CompleteStored(s: Sync, path: string, upload: Upload, numbers: seq<int>, bodies: seq<Bytes>,
                        chunks: seq<AnyChunk>, order: seq<nat>, ghost operations: seq<nat>)
    returns (ok: bool)
    requires Distinct(s.storages) && s.storages != [] && s.CastUpload(upload).None?
    requires |chunks| == |numbers| == |bodies| && forall k | k in order :: k < |bodies|
    requires Stored(s, s.Snapshots(), path, upload.uploads, numbers, bodies, chunks)
    requires |operations| == |s.storages| && Quiet(s, operations)
    modifies s.storages
    ensures ok <==> order != [] && Quiet(s, operations)
    ensures ok ==> forall i | 0 <= i < |s.storages| :: HoldsAt(s.storages[i], path, Flatten(Picked(bodies, order)))
  {
    hide CompleteFailed, Completed, Stored, HoldsAt, Flatten;
    ghost var before := s.Snapshots();
    StoredFits(s, path, upload.uploads, numbers, bodies, chunks, order);
    var err := s.CompleteMultipartUpload(path, upload, Picked(chunks, order));
    ok := err.None?;
    CompletedQuietly(s, before, operations, path, upload.uploads, Picked(chunks, order), ok);
    if ok {
      ReplicasAgree(s, before, path, upload.uploads, Picked(chunks, order), Picked(bodies, order));
    }
  }

  lemma CreatedQuietly(s: Sync, start: seq<Snapshot>, operations: seq<nat>, path: string, r: Result<Upload, Error>)
    requires |start| == |operations| == |s.storages| != 0
    requires forall i | 0 <= i < |start| :: start[i].operations == operations[i]
    requires r.Ok? ==> forall i | 0 <= i < |s.storages| :: Opened(s.storages[i], start[i])
    requires r.Err? ==> exists k: nat :: k < |s.storages| && s.CreateUndone(k, start, path)
    ensures r.Ok? <==> Quiet(s, operations)
  {
    if r.Err? {
      var k: nat :| k < |s.storages| && s.CreateUndone(k, start, path);
      assert OpenFailed(s.storages[k], start[k]);
      assert !QuietChild(s.storages[k], s.Snapshots()[k], operations[k]);
    }
  }

  /** No child was asked in vain before; so none is exactly when the completion works, given something to complete. */
  lemma CompletedQuietly(s: Sync, before: seq<Snapshot>, operations: seq<nat>, path: string, uploads: seq<nat>,
                         chunks: seq<AnyChunk>, ok: bool)
    requires |before| == |operations| == |s.storages| == |uploads| && s.AllFit(chunks)
    requires QuietIn(s, before, operations)
    requires forall i, c | 0 <= i < |before| && c in s.EntriesOf(chunks, i) ::
               PartKey(path, uploads[i], c.number) in before[i].parts
    requires if ok then s.CompletedUpTo(|s.storages|, before, path, uploads, chunks)
             else exists k: nat :: k < |s.storages| && s.StoppedAt(k, before, path, uploads, chunks)
    ensures ok <==> Quiet(s, operations) && (s.storages == [] || chunks != [])
  {
    if !ok {
      var k: nat :| k < |s.storages| && s.StoppedAt(k, before, path, uploads, chunks);
      assert CompleteFailed(s.storages[k], before[k], path, uploads[k], s.EntriesOf(chunks, k));
      assert QuietChild(s.storages[k], before[k], operations[k]);
      assert Quiet(s, operations) ==> QuietChild(s.storages[k], s.Snapshots()[k], operations[k]);
    } else {
      forall i | 0 <= i < |before|
        ensures QuietChild(s.storages[i], s.Snapshots()[i], operations[i])
      {
        assert Completed(s.storages[i], before[i], path, uploads[i], s.EntriesOf(chunks, i));
        assert QuietChild(s.storages[i], before[i], operations[i]);
      }
      if s.storages != [] {
        assert Completed(s.storages[0], before[0], path, uploads[0], s.EntriesOf(chunks, 0));
      }
    }
  }

  lemma StoredFits(s: Sync, path: string, uploads: seq<nat>, numbers: seq<int>, bodies: seq<Bytes>,
                   chunks: seq<AnyChunk>, order: seq<nat>)
    requires |chunks| == |numbers| == |bodies| && |uploads| == |s.storages| && forall k | k in order :: k < |bodies|
    requires Stored(s, s.Snapshots(), path, uploads, numbers, bodies, chunks)
    ensures s.AllFit(Picked(chunks, order))
    ensures forall i, k | 0 <= i < |s.storages| && 0 <= k < |order| ::
              s.HasPart(s.Snapshots()[i], path, uploads[i], s.EntriesOf(Picked(chunks, order), i)[k],
                        Picked(bodies, order)[k])
    ensures forall i, c | 0 <= i < |s.storages| && c in s.EntriesOf(Picked(chunks, order), i) ::
              PartKey(path, uploads[i], c.number) in s.Snapshots()[i].parts
  {
    forall k | 0 <= k < |order|
      ensures s.ChunkFits(Picked(chunks, order)[k])
    {
      assert order[k] in order;
    }
    forall i, k | 0 <= i < |s.storages| && 0 <= k < |order|
      ensures s.HasPart(s.Snapshots()[i], path, uploads[i], s.EntriesOf(Picked(chunks, order), i)[k],
                        Picked(bodies, order)[k])
    {
      assert order[k] in order;
      assert ChildHas(s.Snapshots()[i], path, uploads[i], chunks[order[k]].chunks[i], numbers[order[k]],
                      bodies[order[k]]);
    }
    forall i, c | 0 <= i < |s.storages| && c in s.EntriesOf(Picked(chunks, order), i)
      ensures PartKey(path, uploads[i], c.number) in s.Snapshots()[i].parts
    {
      var k :| 0 <= k < |order| && s.EntriesOf(Picked(chunks, order), i)[k] == c;
      assert s.HasPart(s.Snapshots()[i], path, uploads[i], c, Picked(bodies, order)[k]);
    }
  }
}
