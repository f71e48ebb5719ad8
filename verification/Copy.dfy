/** Clients of the upload protocol: the copy of a backup from one server to another
    (hub/icsd_hub/backups.py), the write of a whole buffer and of an uploaded file (hub/icsd_hub/manage.py),
    over one agent's `fs.read`, `fs.write` and `fs.abort` (agent/internal/actions/fs.go).
 */
module Copy {
  import opened Common
  import opened Upload
  import opened UploadHistory

  const CHUNK := 512 * 1024

  /** What becomes of one call: answered, never delivered, carried out but not answered, or refused by the disk. */
  datatype Fault = Fine | Lost | NoReply | DiskError

  datatype Result<T> = Ok(value: T) | Err

  datatype Part = Part(data: Bytes, eof: bool)

  /** The agent's files, their times and unfinished uploads, changed by one request at a time. */
  class Server {
    /** The size limit and the paths inside the backup directory, which it does not bind. */
    const maxBytes: nat
    const isBackup: string -> bool

    var dirs: set<string>
    var files: map<string, Bytes>
    var mtimes: map<string, int>
    var temps: map<nat, Bytes>
    var nextTemp: nat

    ghost predicate Valid()
      reads this
    {
      mtimes.Keys == files.Keys && forall n :: n in temps ==> n < nextTemp
    }

    constructor (maxBytes: nat, isBackup: string -> bool)
      ensures Valid() && this.maxBytes == maxBytes && this.isBackup == isBackup
      ensures dirs == {} && files == map[] && temps == map[]
    {
      this.maxBytes, this.isBackup := maxBytes, isBackup;
      dirs, files, mtimes, temps, nextTemp := {}, map[], map[], map[], 0;
    }

    method FsMkdir(path: string)
      requires Valid()
      modifies this`dirs
      ensures Valid() && dirs == old(dirs) + {path}
    {
      dirs := dirs + {path};
    }

    /** A chunk is refused, before anything is written, if it or the file would be too large, if the path is
        a directory, or if the editor's copy of the file is not the current one. */
    predicate Refuses(path: string, data: Bytes, offset: nat, ifMtime: int)
      reads this`dirs, this`files, this`mtimes
    {
      || |data| > 2 * CHUNK
      || (!isBackup(path) && offset + |data| > maxBytes)
      || path in dirs
      || (offset == 0 && ifMtime != 0 && path in files && path in mtimes && mtimes[path] != ifMtime)
    }

    /** The limits: a megabyte for a chunk, and the file limit outside the backup directory. */
    lemma RefusesIff(path: string, data: Bytes, offset: nat, ifMtime: int)
      ensures Refuses(path, data, offset, ifMtime) <==>
                || |data| > 1_048_576
                || (!isBackup(path) && offset + |data| > maxBytes)
                || path in dirs
                || (offset == 0 && ifMtime != 0 && path in files && path in mtimes && mtimes[path] != ifMtime)
    {
    }

    method FsRead(path: string, offset: int, length: int) returns (r: Result<Part>)
      ensures path !in files || offset < 0 ==> r.Err?
      ensures path in files && offset >= 0 ==> r.Ok?
      ensures r.Ok? ==> r.value.eof == (offset + |r.value.data| >= |files[path]|)
      ensures r.Ok? && offset <= |files[path]| ==>
                var f := files[path];
                var n := Min(if length <= 0 || length > CHUNK then CHUNK else length, |f| - offset);
                r.value.data == f[offset..offset + n]
      ensures r.Ok? && offset > |files[path]| ==> r.value.data == []
    {
      if path !in files || offset < 0 {
        return Err;
      }
      var f := files[path];
      var want := length;
      if length <= 0 || length > CHUNK {
        want := CHUNK;
      }
      var n := if offset > |f| then 0 else Min(want, |f| - offset);
      var data := if offset > |f| then [] else f[offset..offset + n];
      r := Ok(Part(data, offset + n >= |f|));
    }

    /** One chunk.  On success of a non-final chunk the result is the name of the unfinished upload. */
    method FsWrite(path: string, data: Bytes, offset: nat, final: bool, upload: Option<nat>, ifMtime: int,
                   now: int, diskError: bool)
      returns (r: Result<Option<nat>>)
      requires Valid()
      modifies this`files, this`mtimes, this`temps, this`nextTemp
      ensures Valid() && nextTemp >= old(nextTemp)
      // a chunk that is refused, or that continues no upload, changes nothing
      ensures old(Refuses(path, data, offset, ifMtime))
              || (offset > 0 && !(upload.Some? && upload.value in old(temps))) ==>
                r.Err? && files == old(files) && temps == old(temps)
      // a failed write removes the temporary file and leaves the target alone
      ensures !old(Refuses(path, data, offset, ifMtime)) && diskError && offset == 0 ==>
                r.Err? && files == old(files) && temps == old(temps)
      ensures !old(Refuses(path, data, offset, ifMtime)) && diskError && offset > 0 && upload.Some? ==>
                r.Err? && files == old(files) && temps == old(temps) - {upload.value}
      // otherwise the chunk lands at its offset, and the last one replaces the target
      ensures !old(Refuses(path, data, offset, ifMtime)) && !diskError && offset == 0 ==>
                if final then r == Ok(None) && files == old(files)[path := data] && temps == old(temps)
                else r.Ok? && r.value.Some? && r.value.value !in old(temps) && files == old(files)
                     && temps == old(temps)[r.value.value := data]
      ensures !old(Refuses(path, data, offset, ifMtime)) && !diskError && offset > 0
              && upload.Some? && upload.value in old(temps) ==>
                var bytes := WriteAt(old(temps)[upload.value], offset, data);
                if final then r == Ok(None) && files == old(files)[path := bytes]
                              && temps == old(temps) - {upload.value}
                else r == Ok(upload) && files == old(files) && temps == old(temps)[upload.value := bytes]
      // the time of the target changes with its content
      ensures mtimes == if final && r.Ok? then old(mtimes)[path := now] else old(mtimes)
    {
      if Refuses(path, data, offset, ifMtime) {
        return Err;
      }
      var n;
      if offset == 0 {
        n := nextTemp;
        nextTemp := nextTemp + 1;
        temps := temps[n := []];
      } else if upload.Some? && upload.value in temps {
        n := upload.value;
      } else {
        return Err;
      }
      if diskError {
        temps := temps - {n};
        return Err;
      }
      assert offset == 0 ==> WriteAt([], 0, data) == data;
      temps := temps[n := WriteAt(temps[n], offset, data)];
      if !final {
        return Ok(Some(n));
      }
      files, mtimes := files[path := temps[n]], mtimes[path := now];
      temps := temps - {n};
      r := Ok(None);
    }

    method FsAbort(upload: nat, diskError: bool) returns (removed: bool)
      requires Valid()
      modifies this`temps
      ensures Valid() && (removed <==> upload in old(temps) && !diskError)
      ensures temps == if removed then old(temps) - {upload} else old(temps)
    {
      removed := upload in temps && !diskError;
      if removed {
        temps := temps - {upload};
      }
    }
  }

  /** A write call as the client sees it: it may fail without running, or run without an answer. */
  method CallWrite(dst: Server, path: string, data: Bytes, offset: nat, final: bool, upload: Option<nat>, ifMtime: int,
                   now: int, fault: Fault)
    returns (r: Result<Option<nat>>)
    requires dst.Valid()
    modifies dst`files, dst`mtimes, dst`temps, dst`nextTemp
    ensures dst.Valid()
    ensures fault != Fine ==> r.Err?
    ensures fault == Lost ==> dst.files == old(dst.files) && dst.temps == old(dst.temps)
    ensures !final ==> dst.mtimes == old(dst.mtimes)
    ensures old(dst.Refuses(path, data, offset, ifMtime)) ==> r.Err? && dst.files == old(dst.files)
    ensures var opens := offset == 0 || (upload.Some? && upload.value in old(dst.temps));
            var bytes := if offset > 0 && opens then WriteAt(old(dst.temps)[upload.value], offset, data) else data;
            && (dst.files == old(dst.files) || (opens && final && dst.files == old(dst.files)[path := bytes]))
            && (fault == Fine && opens && !old(dst.Refuses(path, data, offset, ifMtime)) ==> r.Ok?)
            && (r.Ok? ==> opens && (final ==> dst.files == old(dst.files)[path := bytes]))
            && (r.Ok? && !final ==>
                  && r.value.Some? && r.value.value in dst.temps && dst.temps[r.value.value] == bytes
                  && (offset > 0 ==> r.value == upload) && (offset == 0 ==> r.value.value !in old(dst.temps)))
  {
    if fault == Lost {
      return Err;
    }
    r := dst.FsWrite(path, data, offset, final, upload, ifMtime, now, fault == DiskError);
    if fault == NoReply {
      r := Err;
    }
  }

  lemma WriteAtEnd(was: Bytes, data: Bytes)
    ensures WriteAt(was, |was|, data) == was + data
  {
  }

  ghost predicate OnlyPath(path: string, before: map<string, Bytes>, now: map<string, Bytes>, bytes: Bytes) {
    now == before || now == before[path := bytes]
  }

  /** `chunks` cut a prefix of `whole` of length `n`. */
  ghost predicate Cuts(chunks: seq<Bytes>, whole: Bytes, n: nat) {
    n <= |whole| && Concat(chunks) == whole[..n]
  }

  lemma CutsNext(chunks: seq<Bytes>, whole: Bytes, n: nat, c: Bytes)
    requires Cuts(chunks, whole, n) && n + |c| <= |whole| && c == whole[n..n + |c|]
    ensures Cuts(chunks + [c], whole, n + |c|)
  {
    assert (chunks + [c])[..|chunks + [c]| - 1] == chunks;
    assert whole[..n] + c == whole[..n + |c|];
  }

  /** The unfinished upload holds `bytes` (no upload yet when there are none). */
  ghost predicate Holds(dst: Server, upload: Option<nat>, bytes: Bytes)
    reads dst
  {
    dst.Valid() && (upload.None? <==> bytes == []) &&
    (upload.Some? ==> upload.value in dst.temps && dst.temps[upload.value] == bytes)
  }

  /** Reads the next chunk, and whether it is the last. */
  method ReadChunk(src: Server, path: string, offset: nat, fails: bool) returns (r: Result<Part>)
    requires path in src.files ==> offset <= |src.files[path]|
    ensures r.Ok? <==> path in src.files && !fails
    ensures r.Ok? ==> var f, d := src.files[path], r.value.data;
                      && |d| <= CHUNK && offset + |d| <= |f| && d == f[offset..offset + |d|]
                      && (r.value.eof <==> offset + |d| == |f|) && (!r.value.eof ==> d != [])
  {
    r := src.FsRead(path, offset, CHUNK);
    if fails {
      r := Err;
    } else if r.Ok? {
      r := Ok(r.value.(eof := r.value.eof || |r.value.data| == 0));
    }
  }

  datatype Sent = Sent(length: nat, final: bool, upload: Option<nat>)

  /** Sends `whole[offset..]`'s next chunk `data`, as all clients do. */
  method SendChunk(dst: Server, dest: string, ghost whole: Bytes, data: Bytes, offset: nat, final: bool,
                   upload: Option<nat>, ifMtime: int, now: int, fault: Fault)
    returns (r: Result<Sent>)
    requires offset + |data| <= |whole| && data == whole[offset..offset + |data|]
    requires final <==> offset + |data| == |whole|
    requires !final ==> data != []
    requires Holds(dst, upload, whole[..offset])
    modifies dst`files, dst`mtimes, dst`temps, dst`nextTemp
    ensures dst.Valid() && OnlyPath(dest, old(dst.files), dst.files, whole)
    ensures fault == Fine && !old(dst.Refuses(dest, data, offset, ifMtime)) ==> r.Ok?
    ensures old(dst.Refuses(dest, data, offset, ifMtime)) ==> r.Err? && dst.files == old(dst.files)
    ensures r.Ok? ==> r.value.length == |data| && r.value.final == final
    ensures r.Ok? && final ==> dst.files == old(dst.files)[dest := whole]
    ensures r.Ok? && !final ==> dst.files == old(dst.files) && Holds(dst, r.value.upload, whole[..offset + |data|])
    ensures !final ==> dst.files == old(dst.files) && dst.mtimes == old(dst.mtimes)
  {
    assert WriteAt(whole[..offset], offset, data) == whole[..offset + |data|] by {
      WriteAtEnd(whole[..offset], data);
    }
    assert final ==> whole[..offset + |data|] == whole;
    var res := CallWrite(dst, dest, data, offset, final, upload, ifMtime, now, fault);
    if res.Err? {
      return Err;
    }
    r := Ok(Sent(|data|, final, if res.value.Some? then res.value else upload));
  }

  /** No chunk of `whole` will be refused at `path`. */
  ghost predicate Accepts(dst: Server, path: string, whole: Bytes, ifMtime: int)
    reads dst
  {
    && (dst.isBackup(path) || |whole| <= dst.maxBytes) && path !in dst.dirs
    && (ifMtime != 0 && path in dst.files && path in dst.mtimes ==> dst.mtimes[path] == ifMtime)
  }

  /** The loop of `copy_between`.  `readFails` and `faults` give the fate of the k-th read and of the k-th write.
      `chunks` is what was sent: the final chunk is the last one and every earlier one is not empty. */
  method CopyChunks(src: Server, path: string, dst: Server, dest: string, readFails: nat -> bool,
                    faults: nat -> Fault, now: int)
    returns (failed: bool, offset: nat, upload: Option<nat>, ghost chunks: seq<Bytes>)
    requires src != dst && dst.Valid()
    modifies dst`files, dst`mtimes, dst`temps, dst`nextTemp
    ensures dst.Valid()
    ensures path !in src.files ==> failed && dst.files == old(dst.files)
    ensures path in src.files ==> OnlyPath(dest, old(dst.files), dst.files, src.files[path])
    ensures !failed ==> offset == |src.files[path]| && dst.files == old(dst.files)[dest := src.files[path]]
    ensures (path in src.files && (forall k :: !readFails(k)) && (forall k :: faults(k) == Fine)
             && old(Accepts(dst, dest, src.files[path], 0))) ==> !failed
    ensures forall i :: 0 <= i < |chunks| - 1 ==> chunks[i] != []
    ensures path in src.files ==> exists n :: Cuts(chunks, src.files[path], n)
    ensures !failed ==> Concat(chunks) == src.files[path]
  {
    failed, offset, upload, chunks := false, 0, None, [];
    ghost var whole := if path in src.files then src.files[path] else [];
    var k: nat := 0;
    while true
      invariant offset <= |whole| && !failed
      invariant Holds(dst, upload, whole[..offset]) && dst.files == old(dst.files) && dst.mtimes == old(dst.mtimes)
      invariant Cuts(chunks, whole, offset)
      invariant forall i :: 0 <= i < |chunks| ==> chunks[i] != []
      decreases |whole| - offset
    {
      var part := ReadChunk(src, path, offset, readFails(k));
      if part.Err? {
        failed := true;
        break;
      }
      var data, final := part.value.data, part.value.eof;
      CutsNext(chunks, whole, offset, data);
      chunks := chunks + [data];
      var res := SendChunk(dst, dest, whole, data, offset, final, upload, 0, now, faults(k));
      k := k + 1;
      if res.Err? {
        failed := true;
        break;
      }
      upload := res.value.upload;
      offset := offset + |data|;
      if final {
        assert whole[..offset] == whole;
        break;
      }
    }
  }

  /** `copy_between`: the checks before the loop, and the clean-up and the check of the size after it. */
  method CopyBetween(src: Server, path: string, dst: Server, dir: string, dest: string, size: nat, online: bool,
                     mkdirFails: bool, readFails: nat -> bool, faults: nat -> Fault, abortLost: bool, abortFails: bool,
                     now: int)
    returns (r: Result<string>, ghost chunks: seq<Bytes>)
    requires src != dst && dst.Valid()
    modifies dst
    ensures dst.Valid()
    // success: exactly the source bytes, and of the announced size
    ensures r.Ok? ==> path in src.files && |src.files[path]| == size &&
                      dst.files == old(dst.files)[dest := src.files[path]]
    // failure: nothing changed, or the copy is complete although the caller was not told
    ensures path !in src.files || !online || mkdirFails ==> r.Err? && dst.files == old(dst.files)
    ensures path in src.files ==> OnlyPath(dest, old(dst.files), dst.files, src.files[path])
    // without faults it succeeds
    ensures (online && !mkdirFails && path in src.files && |src.files[path]| == size && (forall k :: !readFails(k))
             && (forall k :: faults(k) == Fine) && dir != dest && old(Accepts(dst, dest, src.files[path], 0))) ==> r.Ok?
    // what the upload protocol needs of a client
    ensures forall i :: 0 <= i < |chunks| - 1 ==> chunks[i] != []
    ensures path in src.files ==> exists n :: Cuts(chunks, src.files[path], n)
    ensures r.Ok? ==> Concat(chunks) == src.files[path]
  {
    chunks := [];
    assert path in src.files ==> Cuts(chunks, src.files[path], 0);
    if !online || mkdirFails {
      return Err, chunks;
    }
    dst.FsMkdir(dir);
    var failed, offset, upload;
    failed, offset, upload, chunks := CopyChunks(src, path, dst, dest, readFails, faults, now);
    if failed {
      if upload.Some? && !abortLost {
        var _ := dst.FsAbort(upload.value, abortFails);
      }
      return Err, chunks;
    }
    if offset != size {
      return Err, chunks;
    }
    r := Ok(dest);
  }

  /** The loop of `_write_bytes`: a buffer already in memory, cut into chunks; `ifMtime` is the time of the
      file as the editor opened it, or 0. */
  method WriteBytes(dst: Server, path: string, data: Bytes, ifMtime: int, faults: nat -> Fault, now: int)
    returns (r: Result<()>)
    requires dst.Valid()
    modifies dst`files, dst`mtimes, dst`temps, dst`nextTemp
    ensures dst.Valid()
    ensures r.Ok? ==> dst.files == old(dst.files)[path := data]
    ensures OnlyPath(path, old(dst.files), dst.files, data)
    // an edit of a file that changed in the meantime is not written
    ensures ifMtime != 0 && path in old(dst.files) && old(dst.mtimes)[path] != ifMtime ==>
              r.Err? && dst.files == old(dst.files)
    ensures (forall k :: faults(k) == Fine) && old(Accepts(dst, path, data, ifMtime)) ==> r.Ok?
  {
    var offset: nat := 0;
    var upload: Option<nat> := None;
    var k: nat := 0;
    while true
      invariant offset <= |data|
      invariant Holds(dst, upload, data[..offset]) && dst.files == old(dst.files) && dst.mtimes == old(dst.mtimes)
      invariant offset > 0 ==> !old(dst.Refuses(path, [], 0, ifMtime))
      decreases |data| - offset
    {
      var chunk := data[offset..Min(offset + CHUNK, |data|)];
      var final := offset + |chunk| >= |data|;
      var guard := if offset == 0 then ifMtime else 0;
      var res := SendChunk(dst, path, data, chunk, offset, final, upload, guard, now, faults(k));
      k := k + 1;
      if res.Err? {
        return Err;
      }
      upload := res.value.upload;
      offset := offset + |chunk|;
      if final {
        return Ok(());
      }
    }
  }

  /** What a form file's `read` gives at position `at`. */
  function NextRead(data: Bytes, at: nat): Bytes
    requires at <= |data|
  {
    data[at..Min(at + CHUNK, |data|)]
  }

  /** The loop of `fs_upload` for one file: it reads one chunk ahead, because the agent must be told which
      chunk is the last.  Returns the size it reports. */
  method UploadFile(dst: Server, target: string, data: Bytes, faults: nat -> Fault, now: int) returns (r: Result<nat>)
    requires dst.Valid()
    modifies dst`files, dst`mtimes, dst`temps, dst`nextTemp
    ensures dst.Valid()
    ensures r.Ok? ==> r.value == |data| && dst.files == old(dst.files)[target := data]
    ensures OnlyPath(target, old(dst.files), dst.files, data)
    ensures (forall k :: faults(k) == Fine) && old(Accepts(dst, target, data, 0)) ==> r.Ok?
  {
    var offset: nat := 0;
    var upload: Option<nat> := None;
    var k: nat := 0;
    var chunk := NextRead(data, 0);
    while true
      invariant offset + |chunk| <= |data| && chunk == NextRead(data, offset)
      invariant offset > 0 ==> chunk != []
      invariant Holds(dst, upload, data[..offset]) && dst.files == old(dst.files)
      decreases |data| - offset
    {
      var nxt := NextRead(data, offset + |chunk|);
      var final := nxt == [];
      var res := SendChunk(dst, target, data, chunk, offset, final, upload, 0, now, faults(k));
      k := k + 1;
      if res.Err? {
        return Err;
      }
      upload := res.value.upload;
      offset := offset + |chunk|;
      if final {
        return Ok(offset);
      }
      chunk := nxt;
    }
  }

  // ----- Under interleaving -----

  /** What `CopyBetween` sends, sent by a client of the interleaved protocol: told of success and not renamed
      over since, the target holds exactly the source bytes, whatever other uploads to it went on. */
  lemma CopiedAmongOthers(original: map<string, Bytes>, acts: seq<Action>, c: nat, whole: Bytes) returns (i: nat)
    requires var s := Run(Start(original), acts); c in s.clients && s.clients[c].phase == Stopped(true)
    requires Concat(SentBy(Start(original), acts, c)) == whole
    ensures var s := Run(Start(original), acts);
            var path := s.clients[c].path;
            && RenamedAt(Start(original), acts, i, path, c)
            && ((forall j: nat, d :: i < j ==> !RenamedAt(Start(original), acts, j, path, d)) ==>
                  Content(s, path) == Some(whole))
  {
    i := SuccessLeavesItsData(original, acts, c);
    SentIsWhole(original, acts, c);
  }
}
