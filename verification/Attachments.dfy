/**
 The attachment code in its own form: the local storage backend with its streaming write loop, the
 upload, download and delete services over files and rows, and the orphan collector's loop.
 Failures of the disk, of the upload stream and of the database are parameters.
 */
module Attachments {
  import opened Wrappers
  import opened StorageKeys
  import Protocol = AttachmentProtocol

  type Key = string
  type Bytes = seq<bv8>

  const CHUNK_SIZE: nat := 1024 * 1024

  datatype File = File(data: Bytes, mtime: int)

  datatype StorageError = BadLimit | UnsafeKey | TooLarge | Io | Missing

  /** The bytes one `read(CHUNK_SIZE)` returns at `pos`: empty only at the end. */
  function ReadChunk(data: Bytes, pos: nat): (chunk: Bytes)
    requires pos <= |data|
    ensures chunk == [] <==> pos == |data|
    ensures pos + |chunk| <= |data| && chunk == data[pos..pos + |chunk|] && |chunk| <= 1048576
  {
    if |data| - pos <= CHUNK_SIZE then data[pos..] else data[pos..pos + CHUNK_SIZE]
  }

  class LocalStorageBackend {
    var files: map<Key, File>

    constructor ()
      ensures files == map[]
    {
      files := map[];
    }

    /** Streams `data` into `key`.  Reading raises once `fault` bytes have been read.  On success the file
        holds exactly `data` and its length is returned; on any failure after the key was accepted the key
        is absent; every other key is untouched. */
    method Save(key: Key, data: Bytes, fault: Option<nat>, maxSize: int, now: int)
      returns (r: Result<nat, StorageError>)
      modifies this
      ensures maxSize <= 0 ==> r == Failure(BadLimit)
      ensures maxSize > 0 && !IsSafeKey(key) ==> r == Failure(UnsafeKey)
      ensures maxSize <= 0 || !IsSafeKey(key) ==> files == old(files)
      ensures r.Success? <==>
                0 < maxSize && IsSafeKey(key) && |data| <= maxSize && (fault.None? || |data| < fault.value)
      ensures r.Success? ==> r.value == |data| && files == old(files)[key := File(data, now)]
      ensures r.Failure? && 0 < maxSize && IsSafeKey(key) ==> files == old(files) - {key}
      ensures r == Failure(TooLarge) ==> |data| > maxSize
      ensures fault.None? && 0 < maxSize < |data| && IsSafeKey(key) ==> r == Failure(TooLarge)
    {
      hide IsSafeKey;
      if maxSize <= 0 { return Failure(BadLimit); }
      if !IsSafeKey(key) { return Failure(UnsafeKey); }
      files := files[key := File([], now)];
      var written := 0;
      while true
        invariant 0 <= written <= |data| && written <= maxSize
        invariant files == old(files)[key := File(data[..written], now)]
        decreases |data| - written
      {
        if fault.Some? && fault.value <= written {
          files := files - {key};
          return Failure(Io);
        }
        var chunk := ReadChunk(data, written);
        if chunk == [] { break; }
        written := written + |chunk|;
        if written > maxSize {
          files := files - {key};
          return Failure(TooLarge);
        }
        files := files[key := File(files[key].data + chunk, now)];
        assert data[..written - |chunk|] + chunk == data[..written];
      }
      assert data[..written] == data;
      return Success(written);
    }

    method Open(key: Key) returns (r: Result<Bytes, StorageError>)
      ensures !IsSafeKey(key) ==> r == Failure(UnsafeKey)
      ensures IsSafeKey(key) ==> r == if key in files then Success(files[key].data) else Failure(Missing)
    {
      if !IsSafeKey(key) { return Failure(UnsafeKey); }
      if key !in files { return Failure(Missing); }
      return Success(files[key].data);
    }

    /** Idempotent: an absent key is a success. */
    method Delete(key: Key, ioFault: bool) returns (r: Result<(), StorageError>)
      modifies this
      ensures r == if !IsSafeKey(key) then Failure(UnsafeKey) else if ioFault then Failure(Io) else Success(())
      ensures files == if r.Success? then old(files) - {key} else old(files)
    {
      if !IsSafeKey(key) { return Failure(UnsafeKey); }
      if ioFault { return Failure(Io); }
      files := files - {key};
      return Success(());
    }
  }

  datatype Row = Row(taskId: nat, uploader: nat, storagePath: Key, size: nat)

  datatype ServiceError =
    NotFound | Forbidden | UnsupportedType | FileTooLarge | EmptyFile | StorageFailed | PersistFailed

  /** What the caller sends and what goes wrong on the way. */
  datatype UploadRequest = UploadRequest(tenant: nat, taskId: nat, uploader: nat, visible: bool, ext: Option<string>,
                                         data: Bytes, streamFault: Option<nat>, commitFault: bool, token: string)
  {
    function KeyResult(): Result<Key, string>
      requires ext.Some?
    {
      BuildKey(tenant, taskId, "." + ext.value, token)
    }

    /** The request reaches the storage layer. */
    predicate Admissible() {
      visible && ext.Some? && KeyResult().Success?
    }
  }

  ghost predicate PathTaken(rows: map<nat, Row>, key: Key) {
    exists id :: id in rows && rows[id].storagePath == key
  }

  /** The unique constraint on stored paths. */
  ghost predicate PathsUnique(rows: map<nat, Row>) {
    forall i, j :: i in rows && j in rows && rows[i].storagePath == rows[j].storagePath ==> i == j
  }

  /** Content and database let an upload under `key` succeed. */
  ghost predicate Accepts(q: UploadRequest, maxSize: int, key: Key, rows: map<nat, Row>) {
    && 0 < |q.data| <= maxSize && !q.commitFault
    && (q.streamFault.None? || |q.data| < q.streamFault.value)
    && !PathTaken(rows, key)
  }

  /** The content is stored but its row is refused. */
  ghost predicate FailsToPersist(q: UploadRequest, maxSize: int, key: Key, rows: map<nat, Row>) {
    && 0 < |q.data| <= maxSize && (q.streamFault.None? || |q.data| < q.streamFault.value)
    && (q.commitFault || PathTaken(rows, key))
  }

  ghost predicate Succeeds(q: UploadRequest, maxSize: int, rows: map<nat, Row>) {
    q.Admissible() && Accepts(q, maxSize, q.KeyResult().value, rows)
  }

  /** What an upload leaves: one row and its file, or neither. */
  ghost predicate UploadLeaves(q: UploadRequest, maxSize: int, now: int, id: nat, files0: map<Key, File>,
                               rows0: map<nat, Row>, files1: map<Key, File>, rows1: map<nat, Row>) {
    if Succeeds(q, maxSize, rows0) then
      var key := q.KeyResult().value;
      && id !in rows0 && rows1 == rows0[id := Row(q.taskId, q.uploader, key, |q.data|)]
      && files1 == files0[key := File(q.data, now)]
    else
      && rows1 == rows0
      && files1 == if q.Admissible() && maxSize > 0 then files0 - {q.KeyResult().value} else files0
  }

  /** The path names this request's tenant, task, token and extension, and lies in the directory of that tenant
      and of no other. */
  ghost predicate InPlace(q: UploadRequest, path: Key)
    requires q.ext.Some?
  {
    && (exists stored :: ParseKey(path) == Some(ParsedKey(q.tenant, q.taskId, q.token, stored))
                         && LoweredExtension("." + q.ext.value, stored))
    && OwnDirectoryOnly(path, q.tenant)
  }

  /** A path can be built: positive tenant and task, and an extension of one to sixteen letters or digits, with at
      most one newline behind them. */
  ghost predicate Buildable(q: UploadRequest)
    requires q.ext.Some?
  {
    && q.tenant > 0 && q.taskId > 0
    && exists ext: string :: IsExtensionOf("." + q.ext.value, ext)
  }

  lemma {:induction false} UploadKeyIsInPlace(q: UploadRequest)
    requires IsToken(q.token) && q.ext.Some?
    ensures q.KeyResult().Success? <==> Buildable(q)
    ensures q.KeyResult().Success? ==> InPlace(q, q.KeyResult().value) && IsSafeKey(q.KeyResult().value)
  {
    var suffix := "." + q.ext.value;
    KeyIsBuiltIff(q.tenant, q.taskId, suffix, q.token);
    hide BuildKey, IsToken, IsExtensionOf, ParseKey, LoweredExtension, StoredSuffix, IsSafeKey, OwnDirectoryOnly, Split;
    if q.KeyResult().Success? {
      GeneratedKeyRoundTrip(q.tenant, q.taskId, suffix, q.token);
      GeneratedInOwnDirectory(q.tenant, q.taskId, suffix, q.token);
    }
  }

  // --------------------------------------------------------------------------------------
  // The services as runs of the protocol
  // --------------------------------------------------------------------------------------

  /** A protocol state with these files and rows. */
  ghost predicate Represents(s: Protocol.State, files: map<Key, File>, rows: map<nat, Row>) {
    && s.files.Keys == files.Keys && (forall k :: k in files ==> s.files[k] == files[k].mtime)
    && (forall k :: k in s.rows <==> PathTaken(rows, k))
  }

  /** No key is created twice. */
  ghost predicate CreatesNew(s: Protocol.State, steps: seq<Protocol.Step>) {
    forall i :: 0 <= i < |steps| && steps[i].CreateFile? ==> steps[i].key !in s.born
  }

  /** From every protocol state at `now` that has the first files and rows, these steps lead to one that has
      the second. */
  ghost predicate IsProtocolRun(steps: seq<Protocol.Step>, files0: map<Key, File>, rows0: map<nat, Row>,
                                files1: map<Key, File>, rows1: map<nat, Row>, now: int) {
    forall s: Protocol.State, c ::
      s.clock == now && Represents(s, files0, rows0) && Protocol.BooksOk(s) && CreatesNew(s, steps) ==>
        LeadsTo(s, steps, files1, rows1, c)
  }

  ghost predicate LeadsTo(s: Protocol.State, steps: seq<Protocol.Step>, files: map<Key, File>, rows: map<nat, Row>,
                          c: Protocol.Config) {
    exists t :: Protocol.Reaches(s, steps, t, c) && Represents(t, files, rows)
  }

  function Writes(key: Key, chunks: nat): seq<Protocol.Step> {
    if chunks == 0 then [] else [Protocol.WriteChunk(key)] + Writes(key, chunks - 1)
  }

  /** Create the file, write any number of chunks, then commit the row or take the file away again. */
  ghost function UploadSteps(q: UploadRequest, maxSize: int, rows: map<nat, Row>, chunks: nat): seq<Protocol.Step> {
    if !q.Admissible() || maxSize <= 0 then []
    else
      var key := q.KeyResult().value;
      [Protocol.CreateFile(key)] + Writes(key, chunks)
      + [if Succeeds(q, maxSize, rows) then Protocol.CommitRow(key) else Protocol.AbortUpload(key)]
  }

  /** Remove the file, then commit the delete, as far as the outcome says it got. */
  function DeleteSteps(key: Key, r: Result<(), ServiceError>): seq<Protocol.Step> {
    if r.Success? then [Protocol.RemoveFile(key), Protocol.CommitDelete(key)]
    else if r.error == PersistFailed then [Protocol.RemoveFile(key)]
    else []
  }

  /** Chunks written at the instant of creation leave the state as it is. */
  lemma {:induction false} WritesThenLast(s: Protocol.State, key: Key, chunks: nat, last: Protocol.Step,
                                          t: Protocol.State, c: Protocol.Config)
    requires key in s.uploads && key in s.files && s.files[key] == s.clock
    requires Protocol.Enabled(s, last, c) && t == Protocol.Apply(s, last, c)
    ensures Protocol.Reaches(s, Writes(key, chunks) + [last], t, c)
  {
    if chunks == 0 {
      assert Writes(key, chunks) + [last] == [last] && [last][1..] == [];
    } else {
      var w := Protocol.WriteChunk(key);
      var steps := Writes(key, chunks) + [last];
      WritesThenLast(s, key, chunks - 1, last, t, c);
      assert steps[0] == w && steps[1..] == Writes(key, chunks - 1) + [last];
      assert s.files[key := s.clock] == s.files;
      assert Protocol.Apply(s, w, c) == s;
    }
  }

  lemma {:induction false} UploadIsProtocolRun(q: UploadRequest, maxSize: int, now: int, id: nat,
                                               files0: map<Key, File>, rows0: map<nat, Row>, files1: map<Key, File>,
                                               rows1: map<nat, Row>, chunks: nat)
    requires IsToken(q.token) && UploadLeaves(q, maxSize, now, id, files0, rows0, files1, rows1)
    ensures IsProtocolRun(UploadSteps(q, maxSize, rows0, chunks), files0, rows0, files1, rows1, now)
  {
    var steps := UploadSteps(q, maxSize, rows0, chunks);
    forall s: Protocol.State, c |
      s.clock == now && Represents(s, files0, rows0) && Protocol.BooksOk(s) && CreatesNew(s, steps)
      ensures LeadsTo(s, steps, files1, rows1, c)
    {
      if !q.Admissible() || maxSize <= 0 {
        assert Protocol.Reaches(s, [], s, c);
      } else {
        var key := q.KeyResult().value;
        assert steps[0] == Protocol.CreateFile(key);
        GeneratedKeyRoundTrip(q.tenant, q.taskId, "." + q.ext.value, q.token);
        StoredOrAborted(s, key, q, now, Succeeds(q, maxSize, rows0), id, files0, rows0, files1, rows1, chunks, c);
      }
    }
  }

  lemma {:induction false} StoredOrAborted(s: Protocol.State, key: Key, q: UploadRequest, now: int, ok: bool, id: nat,
                                           files0: map<Key, File>, rows0: map<nat, Row>, files1: map<Key, File>,
                                           rows1: map<nat, Row>, chunks: nat, c: Protocol.Config)
    requires s.clock == now && Represents(s, files0, rows0) && Protocol.BooksOk(s) && key !in s.born && IsSafeKey(key)
    requires ok ==> id !in rows0 && rows1 == rows0[id := Row(q.taskId, q.uploader, key, |q.data|)]
                    && files1 == files0[key := File(q.data, now)]
    requires !ok ==> rows1 == rows0 && files1 == files0 - {key}
    ensures LeadsTo(s, [Protocol.CreateFile(key)] + Writes(key, chunks)
                       + [if ok then Protocol.CommitRow(key) else Protocol.AbortUpload(key)], files1, rows1, c)
  {
    hide IsSafeKey;
    var last := if ok then Protocol.CommitRow(key) else Protocol.AbortUpload(key);
    var t := CreateWriteLast(s, key, chunks, ok, c);
    hide Protocol.Reaches, Writes, Protocol.Enabled, Protocol.Apply;
    forall k ensures k in t.rows <==> PathTaken(rows1, k) {
      if ok {
        RowAdded(rows0, id, rows1[id], k);
      }
    }
    assert Represents(t, files1, rows1);
  }

  lemma {:induction false} CreateWriteLast(s: Protocol.State, key: Key, chunks: nat, ok: bool, c: Protocol.Config)
    returns (t: Protocol.State)
    requires Protocol.BooksOk(s) && key !in s.born && IsSafeKey(key)
    ensures Protocol.Reaches(s, [Protocol.CreateFile(key)] + Writes(key, chunks)
                                + [if ok then Protocol.CommitRow(key) else Protocol.AbortUpload(key)], t, c)
    ensures t.files == if ok then s.files[key := s.clock] else s.files - {key}
    ensures t.rows == if ok then s.rows + {key} else s.rows
  {
    hide IsSafeKey;
    var last := if ok then Protocol.CommitRow(key) else Protocol.AbortUpload(key);
    var steps := [Protocol.CreateFile(key)] + Writes(key, chunks) + [last];
    var created := Protocol.Apply(s, Protocol.CreateFile(key), c);
    t := Protocol.Apply(created, last, c);
    WritesThenLast(created, key, chunks, last, t, c);
    assert steps[1..] == Writes(key, chunks) + [last];
  }

  lemma {:induction false} RowAdded(rows: map<nat, Row>, id: nat, row: Row, k: Key)
    requires id !in rows
    ensures PathTaken(rows[id := row], k) <==> PathTaken(rows, k) || k == row.storagePath
  {
    if PathTaken(rows, k) {
      var i :| i in rows && rows[i].storagePath == k;
      assert rows[id := row][i].storagePath == k;
    }
    if k == row.storagePath {
      assert rows[id := row][id].storagePath == k;
    }
  }

  lemma {:induction false} RowRemoved(rows: map<nat, Row>, id: nat, k: Key)
    requires id in rows && PathsUnique(rows)
    ensures PathTaken(rows - {id}, k) <==> PathTaken(rows, k) && k != rows[id].storagePath
  {
    if PathTaken(rows, k) && k != rows[id].storagePath {
      var i :| i in rows && rows[i].storagePath == k;
      assert i in rows - {id};
    }
  }

  function FilesAfterDelete(files: map<Key, File>, key: Key, r: Result<(), ServiceError>): map<Key, File> {
    if r.Success? || r.error == PersistFailed then files - {key} else files
  }

  function RowsAfterDelete(rows: map<nat, Row>, id: nat, r: Result<(), ServiceError>): map<nat, Row> {
    if r.Success? then rows - {id} else rows
  }

  /** A delete of a row with a well-formed path, whatever its outcome. */
  lemma {:induction false} DeleteIsProtocolRun(id: nat, files0: map<Key, File>, rows0: map<nat, Row>,
                                               r: Result<(), ServiceError>, now: int)
    requires id in rows0 && PathsUnique(rows0)
    ensures var k := rows0[id].storagePath;
            IsProtocolRun(DeleteSteps(k, r), files0, rows0, FilesAfterDelete(files0, k, r),
                          RowsAfterDelete(rows0, id, r), now)
  {
    var k := rows0[id].storagePath;
    var steps, files1, rows1 := DeleteSteps(k, r), FilesAfterDelete(files0, k, r), RowsAfterDelete(rows0, id, r);
    forall s: Protocol.State, c |
      s.clock == now && Represents(s, files0, rows0) && Protocol.BooksOk(s) && CreatesNew(s, steps)
      ensures LeadsTo(s, steps, files1, rows1, c)
    {
      DeleteLeads(s, id, r, files0, rows0, c);
    }
  }

  lemma {:induction false} DeleteLeads(s: Protocol.State, id: nat, r: Result<(), ServiceError>, files0: map<Key, File>,
                                       rows0: map<nat, Row>, c: Protocol.Config)
    requires id in rows0 && PathsUnique(rows0) && Represents(s, files0, rows0) && Protocol.BooksOk(s)
    ensures var k := rows0[id].storagePath;
            LeadsTo(s, DeleteSteps(k, r), FilesAfterDelete(files0, k, r), RowsAfterDelete(rows0, id, r), c)
  {
    var k := rows0[id].storagePath;
    assert PathTaken(rows0, k) && k in s.rows;
    var steps := DeleteSteps(k, r);
    if steps == [] {
      assert Protocol.Reaches(s, steps, s, c);
    } else {
      var removed := Protocol.Apply(s, Protocol.RemoveFile(k), c);
      if r.Success? {
        var t := Protocol.Apply(removed, Protocol.CommitDelete(k), c);
        assert steps[1..] == [Protocol.CommitDelete(k)] && steps[1..][1..] == [];
        assert Protocol.Reaches(removed, steps[1..], t, c);
        assert Protocol.Reaches(s, steps, t, c);
        forall other ensures other in t.rows <==> PathTaken(rows0 - {id}, other) {
          RowRemoved(rows0, id, other);
        }
        assert Represents(t, files0 - {k}, rows0 - {id});
      } else {
        assert steps[1..] == [];
        assert Protocol.Reaches(s, steps, removed, c);
        assert Represents(removed, files0 - {k}, rows0);
      }
    }
  }

  class AttachmentService {
    const backend: LocalStorageBackend
    const maxSize: int
    var rows: map<nat, Row>
    var nextId: nat

    constructor (maxSize: int)
      ensures fresh(backend) && this.maxSize == maxSize && rows == map[] && backend.files == map[]
    {
      backend := new LocalStorageBackend();
      this.maxSize := maxSize;
      rows, nextId := map[], 0;
    }

    ghost predicate Valid()
      reads this
    {
      (forall id :: id in rows ==> id < nextId) && PathsUnique(rows)
    }

    /** File first, then row.  It succeeds exactly when nothing fails and the content fits; then one row
        points at a file with exactly the uploaded bytes, in the uploader's tenant's directory.  When it fails no
        row appears and the generated key is left without a file.  On files and rows this is a run of the
        protocol. */
    method Upload(q: UploadRequest, now: int) returns (r: Result<nat, ServiceError>)
      requires Valid() && IsToken(q.token)
      modifies this, backend
      ensures Valid()
      ensures r.Success? <==> Succeeds(q, maxSize, old(rows))
      ensures UploadLeaves(q, maxSize, now, if r.Success? then r.value else 0, old(backend.files), old(rows),
                           backend.files, rows)
      ensures q.Admissible() && q.streamFault.None? && maxSize > 0 ==>
                (r == Failure(FileTooLarge) <==> |q.data| > maxSize) && (r == Failure(EmptyFile) <==> q.data == [])
      ensures (r == Failure(NotFound) <==> !q.visible) && (r == Failure(UnsupportedType) <==> q.visible && q.ext.None?)
      ensures r == Failure(PersistFailed) <==>
                q.Admissible() && FailsToPersist(q, maxSize, q.KeyResult().value, old(rows))
      ensures q.visible && q.ext.Some? ==> (q.KeyResult().Success? <==> Buildable(q))
      ensures r.Success? ==> q.ext.Some? && InPlace(q, rows[r.value].storagePath)
      ensures forall chunks: nat ::
                IsProtocolRun(UploadSteps(q, maxSize, old(rows), chunks), old(backend.files), old(rows), backend.files,
                              rows, now)
    {
      hide IsProtocolRun, UploadSteps, IsSafeKey, BuildKey, IsToken, InPlace, Buildable;
      ghost var files0, rows0 := backend.files, rows;
      r := UploadStepwise(q, now);
      if q.ext.Some? {
        UploadKeyIsInPlace(q);
      }
      forall chunks: nat
        ensures IsProtocolRun(UploadSteps(q, maxSize, rows0, chunks), files0, rows0, backend.files, rows, now)
      {
        UploadIsProtocolRun(q, maxSize, now, if r.Success? then r.value else 0, files0, rows0, backend.files, rows,
                            chunks);
      }
    }

    /** The body of an upload, branch by branch. */
    method UploadStepwise(q: UploadRequest, now: int) returns (r: Result<nat, ServiceError>)
      requires Valid() && IsToken(q.token)
      modifies this, backend
      ensures Valid()
      ensures r.Success? <==> Succeeds(q, maxSize, old(rows))
      ensures UploadLeaves(q, maxSize, now, if r.Success? then r.value else 0, old(backend.files), old(rows),
                           backend.files, rows)
      ensures q.Admissible() && q.streamFault.None? && maxSize > 0 ==>
                (r == Failure(FileTooLarge) <==> |q.data| > maxSize) && (r == Failure(EmptyFile) <==> q.data == [])
      ensures (r == Failure(NotFound) <==> !q.visible) && (r == Failure(UnsupportedType) <==> q.visible && q.ext.None?)
      ensures r == Failure(PersistFailed) <==>
                q.Admissible() && FailsToPersist(q, maxSize, q.KeyResult().value, old(rows))
    {
      if !q.visible { return Failure(NotFound); }
      if q.ext.None? { return Failure(UnsupportedType); }
      var built := q.KeyResult();
      if built.Failure? { return Failure(StorageFailed); }
      GeneratedKeyRoundTrip(q.tenant, q.taskId, "." + q.ext.value, q.token);
      hide IsSafeKey, BuildKey, IsToken;
      r := SaveAndPersist(q, built.value, now);
    }

    /** An upload once its key is generated. */
    method SaveAndPersist(q: UploadRequest, key: Key, now: int) returns (r: Result<nat, ServiceError>)
      requires Valid() && IsSafeKey(key)
      modifies this, backend
      ensures Valid()
      ensures r.Success? <==> Accepts(q, maxSize, key, old(rows))
      ensures r.Success? ==>
                && r.value !in old(rows) && rows == old(rows)[r.value := Row(q.taskId, q.uploader, key, |q.data|)]
                && backend.files == old(backend.files)[key := File(q.data, now)]
      ensures r.Failure? ==>
                && rows == old(rows)
                && backend.files == if maxSize > 0 then old(backend.files) - {key} else old(backend.files)
      ensures q.streamFault.None? && maxSize > 0 ==>
                (r == Failure(FileTooLarge) <==> |q.data| > maxSize) && (r == Failure(EmptyFile) <==> q.data == [])
      ensures r != Failure(NotFound) && r != Failure(UnsupportedType)
      ensures r == Failure(PersistFailed) <==> FailsToPersist(q, maxSize, key, old(rows))
    {
      hide IsSafeKey;
      var saved := backend.Save(key, q.data, q.streamFault, maxSize, now);
      if saved.Failure? {
        return Failure(if saved.error == TooLarge then FileTooLarge else StorageFailed);
      }
      if saved.value == 0 {
        var _ := backend.Delete(key, false);
        return Failure(EmptyFile);
      }
      if q.commitFault || exists id :: id in rows && rows[id].storagePath == key {
        var _ := backend.Delete(key, false);
        return Failure(PersistFailed);
      }
      r := Success(nextId);
      rows := rows[nextId := Row(q.taskId, q.uploader, key, saved.value)];
      nextId := nextId + 1;
    }

    /** A missing row, a hidden task, a missing file and a malformed stored key all read as "not found". */
    method OpenAttachment(id: nat, visible: bool) returns (r: Result<Bytes, ServiceError>)
      ensures r.Failure? ==> r.error == NotFound
      ensures r.Success? <==>
                id in rows && visible && IsSafeKey(rows[id].storagePath) && rows[id].storagePath in backend.files
      ensures r.Success? ==> r.value == backend.files[rows[id].storagePath].data
    {
      if id !in rows || !visible { return Failure(NotFound); }
      var handle := backend.Open(rows[id].storagePath);
      if handle.Failure? { return Failure(NotFound); }
      return Success(handle.value);
    }

    /** File first, then row.  A disk failure keeps both; a failed commit keeps the row without its file;
        a malformed stored key never blocks the removal of its row.  For a well-formed one this is a run of the
        protocol on files and rows. */
    method DeleteAttachment(id: nat, visible: bool, allowed: bool, ioFault: bool, commitFault: bool)
      returns (r: Result<(), ServiceError>)
      requires Valid()
      modifies this, backend
      ensures Valid()
      ensures r.Success? <==> id in old(rows) && visible && allowed && !commitFault
                              && (!ioFault || !IsSafeKey(old(rows)[id].storagePath))
      ensures rows == RowsAfterDelete(old(rows), id, r)
      ensures id !in old(rows) || !visible ==> r == Failure(NotFound)
      ensures id in old(rows) && visible && !allowed ==> r == Failure(Forbidden)
      ensures id in old(rows) && visible && allowed ==>
                var stuck := ioFault && IsSafeKey(old(rows)[id].storagePath);
                (r == Failure(StorageFailed) <==> stuck) && (r == Failure(PersistFailed) <==> commitFault && !stuck)
      ensures r == Failure(PersistFailed) ==> id in old(rows)
      ensures backend.files == if id !in old(rows) || !IsSafeKey(old(rows)[id].storagePath) then old(backend.files)
                               else FilesAfterDelete(old(backend.files), old(rows)[id].storagePath, r)
      ensures id in old(rows) && IsSafeKey(old(rows)[id].storagePath) ==>
                forall now :: IsProtocolRun(DeleteSteps(old(rows)[id].storagePath, r), old(backend.files), old(rows),
                                            backend.files, rows, now)
    {
      hide IsProtocolRun, IsSafeKey, DeleteSteps;
      ghost var files0, rows0 := backend.files, rows;
      r := DeleteStepwise(id, visible, allowed, ioFault, commitFault);
      if id in rows0 && IsSafeKey(rows0[id].storagePath) {
        forall now
          ensures IsProtocolRun(DeleteSteps(rows0[id].storagePath, r), files0, rows0, backend.files, rows, now)
        {
          DeleteIsProtocolRun(id, files0, rows0, r, now);
        }
      }
    }

    /** The body of a delete, branch by branch. */
    method DeleteStepwise(id: nat, visible: bool, allowed: bool, ioFault: bool, commitFault: bool)
      returns (r: Result<(), ServiceError>)
      requires Valid()
      modifies this, backend
      ensures Valid()
      ensures r.Success? <==> id in old(rows) && visible && allowed && !commitFault
                              && (!ioFault || !IsSafeKey(old(rows)[id].storagePath))
      ensures rows == RowsAfterDelete(old(rows), id, r)
      ensures id !in old(rows) || !visible ==> r == Failure(NotFound)
      ensures id in old(rows) && visible && !allowed ==> r == Failure(Forbidden)
      ensures id in old(rows) && visible && allowed ==>
                var stuck := ioFault && IsSafeKey(old(rows)[id].storagePath);
                (r == Failure(StorageFailed) <==> stuck) && (r == Failure(PersistFailed) <==> commitFault && !stuck)
      ensures r == Failure(PersistFailed) ==> id in old(rows)
      ensures backend.files == if id !in old(rows) || !IsSafeKey(old(rows)[id].storagePath) then old(backend.files)
                               else FilesAfterDelete(old(backend.files), old(rows)[id].storagePath, r)
    {
      hide IsSafeKey;
      if id !in rows || !visible { return Failure(NotFound); }
      if !allowed { return Failure(Forbidden); }
      var removed := backend.Delete(rows[id].storagePath, ioFault);
      if removed.Failure? && removed.error != UnsafeKey { return Failure(StorageFailed); }
      if commitFault { return Failure(PersistFailed); }
      rows := rows - {id};
      return Success(());
    }
  }

  // --------------------------------------------------------------------------------------
  // The orphan collector
  // --------------------------------------------------------------------------------------

  type Listing = seq<(Key, int)>

  datatype Counts = Counts(scanned: nat, deleted: nat, skippedReferenced: nat, errors: nat)

  /** What becomes of one listed file. */
  datatype Fate = Referenced | Unsafe | Young | Deleted | Failed

  /** One sweep: the referenced paths, the clock reading, the minimum age, and the keys whose deletion raises. */
  datatype Sweep = Sweep(referenced: set<Key>, now: int, minAge: int, stuck: set<Key>)
  {
    function FateOf(entry: (Key, int)): (f: Fate)
      ensures f == Deleted || f == Failed <==> Protocol.ShouldCollect(entry.0, entry.1, referenced, now, minAge)
      ensures f == Referenced <==> entry.0 in referenced
      ensures f == Unsafe <==> entry.0 !in referenced && !IsSafeKey(entry.0)
      ensures f == Young <==> entry.0 !in referenced && IsSafeKey(entry.0) && now < entry.1 + minAge
      ensures f == Failed ==> entry.0 in stuck
      ensures f == Deleted ==> entry.0 !in stuck
    {
      if entry.0 in referenced then Referenced
      else if !IsSafeKey(entry.0) then Unsafe
      else if now - entry.1 < minAge then Young
      else if entry.0 in stuck then Failed
      else Deleted
    }
  }

  /** The positions before `n` with fate `f`. */
  function Where(physical: Listing, n: nat, w: Sweep, f: Fate): set<nat>
    requires n <= |physical|
  {
    set i | 0 <= i < n && w.FateOf(physical[i]) == f
  }

  function Removed(physical: Listing, n: nat, w: Sweep): set<Key>
    requires n <= |physical|
  {
    set i | 0 <= i < n && w.FateOf(physical[i]) == Deleted :: physical[i].0
  }

  /** The files to delete: unreferenced, well named, and at least `minAge` old. */
  function Due(physical: Listing, w: Sweep): set<nat> {
    set i | 0 <= i < |physical|
            && physical[i].0 !in w.referenced && IsSafeKey(physical[i].0) && physical[i].1 + w.minAge <= w.now
  }

  lemma {:induction false} FatesInWords(physical: Listing, w: Sweep)
    ensures Where(physical, |physical|, w, Referenced) == set i | 0 <= i < |physical| && physical[i].0 in w.referenced
    ensures Where(physical, |physical|, w, Failed) == set i | i in Due(physical, w) && physical[i].0 in w.stuck
    ensures |Where(physical, |physical|, w, Deleted)| + |Where(physical, |physical|, w, Failed)| == |Due(physical, w)|
  {
    hide IsSafeKey;
    var deleted, failed := Where(physical, |physical|, w, Deleted), Where(physical, |physical|, w, Failed);
    assert deleted + failed == Due(physical, w) && deleted !! failed;
  }

  /** The collector's loop over one listing.  `stuck` are the keys whose deletion raises. */
  method Cleanup(backend: LocalStorageBackend, physical: Listing, w: Sweep) returns (r: Result<Counts, string>)
    modifies backend
    ensures r.Success? <==> w.minAge >= 0
    ensures r.Failure? ==> backend.files == old(backend.files)
    ensures r.Success? ==>
              && backend.files == old(backend.files) - Removed(physical, |physical|, w)
              && r.value == Counts(|physical|, |Where(physical, |physical|, w, Deleted)|,
                                   |Where(physical, |physical|, w, Referenced)|,
                                   |Where(physical, |physical|, w, Failed)|)
              && r.value.skippedReferenced == |set i | 0 <= i < |physical| && physical[i].0 in w.referenced|
              && r.value.deleted + r.value.errors == |Due(physical, w)|
              && r.value.errors == |set i | i in Due(physical, w) && physical[i].0 in w.stuck|
  {
    hide IsSafeKey;
    if w.minAge < 0 { return Failure("min_age_seconds must be non-negative"); }
    var deleted, skipped, errors := 0, 0, 0;
    for n := 0 to |physical|
      invariant backend.files == old(backend.files) - Removed(physical, n, w)
      invariant deleted == |Where(physical, n, w, Deleted)|
      invariant skipped == |Where(physical, n, w, Referenced)|
      invariant errors == |Where(physical, n, w, Failed)|
    {
      hide Where, Removed;
      var (key, mtime) := physical[n];
      forall f: Fate { WhereGrows(physical, n, w, f); }
      RemovedGrows(old(backend.files), physical, n, w);
      if key in w.referenced { skipped := skipped + 1; continue; }
      if !IsSafeKey(key) { continue; }
      if w.now - mtime < w.minAge { continue; }
      var outcome := backend.Delete(key, key in w.stuck);
      if outcome.Success? { deleted := deleted + 1; } else { errors := errors + 1; }
    }
    FatesInWords(physical, w);
    return Success(Counts(|physical|, deleted, skipped, errors));
  }

  lemma {:induction false} WhereGrows(physical: Listing, n: nat, w: Sweep, f: Fate)
    requires n < |physical|
    ensures |Where(physical, n + 1, w, f)| == |Where(physical, n, w, f)| + (if w.FateOf(physical[n]) == f then 1 else 0)
  {
    hide IsSafeKey, Sweep.FateOf;
    if w.FateOf(physical[n]) == f {
      assert Where(physical, n + 1, w, f) == Where(physical, n, w, f) + {n};
    } else {
      assert Where(physical, n + 1, w, f) == Where(physical, n, w, f);
    }
  }

  lemma {:induction false} RemovedGrows(files: map<Key, File>, physical: Listing, n: nat, w: Sweep)
    requires n < |physical|
    ensures var rest := files - Removed(physical, n, w);
            files - Removed(physical, n + 1, w)
            == if w.FateOf(physical[n]) == Deleted then rest - {physical[n].0} else rest
  {
    assert Removed(physical, n + 1, w)
           == Removed(physical, n, w) + (if w.FateOf(physical[n]) == Deleted then {physical[n].0} else {});
  }

  /** The listing names exactly the files there are, with their mtimes. */
  ghost predicate Lists(physical: Listing, files: map<Key, File>) {
    && (forall i :: 0 <= i < |physical| ==> physical[i].0 in files && files[physical[i].0].mtime == physical[i].1)
    && (forall k :: k in files ==> exists i :: 0 <= i < |physical| && physical[i].0 == k)
  }

  /** A sweep over a quiescent store leaves exactly the files that are referenced, too young, badly named
      or impossible to delete. */
  lemma {:induction false} QuiescentSweepLeaves(files: map<Key, File>, physical: Listing, w: Sweep)
    requires Lists(physical, files)
    ensures (files - Removed(physical, |physical|, w)).Keys
            == set k | k in files && (k in w.referenced || w.now - files[k].mtime < w.minAge || !IsSafeKey(k)
                                      || k in w.stuck)
  {
    forall k | k in files
      ensures k in Removed(physical, |physical|, w)
              <==> k !in w.referenced && w.now - files[k].mtime >= w.minAge && IsSafeKey(k) && k !in w.stuck
    {
      var i :| 0 <= i < |physical| && physical[i].0 == k;
      assert w.FateOf(physical[i]) == Deleted ==> physical[i].0 in Removed(physical, |physical|, w);
    }
  }
}
