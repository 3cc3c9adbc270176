/** Multipart uploads on a local disk: chunks as files, concatenated into a temporary file that is renamed over
    the destination (storage/providers/os.go). */
module OsStorage {
  import opened Common
  import opened MultipartPaths
  import GcsStorage

  datatype Error = NoChunksProvided | ChunkProcess | DiskError

  /** The files below the provider's directory by relative path, and temporary files, whose names are fresh. The
      n-th system call fails when `fails(n)`; a failing copy has written only part of its data. */
  class Disk {
    var files: map<string, Bytes>
    var temps: map<nat, Bytes>
    var nextTemp: nat
    const fails: nat -> bool
    const partial: nat -> nat
    var calls: nat

    ghost predicate Valid()
      reads this
    {
      forall t | t in temps :: t < nextTemp
    }

    constructor (fails: nat -> bool, partial: nat -> nat)
      ensures Valid() && files == map[] && temps == map[] && calls == 0
    {
      this.fails, this.partial := fails, partial;
      files, temps, nextTemp, calls := map[], map[], 0, 0;
    }

    ghost predicate NoneFails(first: nat)
      reads this
    {
      forall c: nat | first <= c < calls :: !fails(c)
    }

    /** A call that only succeeds or fails: MkdirAll, Sync, Close. */
    method Call() returns (ok: bool)
      modifies this`calls
      ensures calls == old(calls) + 1 && ok == !fails(old(calls))
    {
      ok := !fails(calls);
      calls := calls + 1;
    }

    method CreateTemp() returns (t: Option<nat>)
      requires Valid()
      modifies this
      ensures Valid() && calls == old(calls) + 1 && files == old(files)
      ensures t.Some? == !fails(old(calls))
      ensures t.Some? ==> t.value !in old(temps) && temps == old(temps)[t.value := ""]
      ensures t.None? ==> temps == old(temps)
    {
      t := if fails(calls) then None else Some(nextTemp);
      if t.Some? {
        temps, nextTemp := temps[nextTemp := ""], nextTemp + 1;
      }
      calls := calls + 1;
    }

    method Open(path: string) returns (data: Option<Bytes>)
      modifies this`calls
      ensures calls == old(calls) + 1
      ensures data == if fails(old(calls)) || path !in files then None else Some(files[path])
    {
      data := if fails(calls) || path !in files then None else Some(files[path]);
      calls := calls + 1;
    }

    method Append(t: nat, data: Bytes) returns (ok: bool)
      requires Valid() && t in temps
      modifies this
      ensures Valid() && calls == old(calls) + 1 && files == old(files)
      ensures ok == !fails(old(calls))
      ensures exists n: nat ::
                n <= |data| && (ok ==> n == |data|) && temps == old(temps)[t := old(temps)[t] + data[..n]]
    {
      ok := !fails(calls);
      var n := if ok || partial(calls) > |data| then |data| else partial(calls);
      assert ok ==> n == |data|;
      temps := temps[t := temps[t] + data[..n]];
      calls := calls + 1;
    }

    method Rename(t: nat, path: string) returns (ok: bool)
      requires Valid() && t in temps
      modifies this
      ensures Valid() && calls == old(calls) + 1
      ensures ok == !fails(old(calls))
      ensures files == if ok then old(files)[path := old(temps)[t]] else old(files)
      ensures temps == if ok then old(temps) - {t} else old(temps)
    {
      ok := !fails(calls);
      if ok {
        files, temps := files[path := temps[t]], temps - {t};
      }
      calls := calls + 1;
    }

    /** os.Remove of a temporary file; that it is gone already is no failure to the callers. */
    method RemoveTemp(t: nat) returns (ok: bool)
      requires Valid()
      modifies this
      ensures Valid() && calls == old(calls) + 1 && files == old(files)
      ensures ok == !fails(old(calls))
      ensures temps == if ok then old(temps) - {t} else old(temps)
    {
      ok := !fails(calls);
      if ok {
        temps := temps - {t};
      }
      calls := calls + 1;
    }

    /** Create or truncate a file and copy data into it. */
    method WriteFile(path: string, data: Bytes) returns (ok: bool)
      requires Valid()
      modifies this
      ensures Valid() && calls == old(calls) + 1 && temps == old(temps)
      ensures ok == !fails(old(calls))
      ensures exists n: nat :: n <= |data| && (ok ==> n == |data|) && files == old(files)[path := data[..n]]
    {
      ok := !fails(calls);
      var n := if ok || partial(calls) > |data| then |data| else partial(calls);
      assert ok ==> n == |data|;
      files := files[path := data[..n]];
      calls := calls + 1;
    }

    /** os.RemoveAll of a directory: everything below it, or a part of that when it fails. */
    method RemoveAll(dir: string) returns (ok: bool)
      requires Valid()
      modifies this
      ensures Valid() && calls == old(calls) + 1 && temps == old(temps)
      ensures ok == !fails(old(calls))
      ensures forall p | p in files :: p in old(files) && files[p] == old(files)[p]
      ensures forall p | p in old(files) && !Below(dir, p) :: p in files
      ensures ok ==> forall p | p in files :: !Below(dir, p)
    {
      ok := !fails(calls);
      var gone := set p | p in files && Below(dir, p);
      if !ok {
        var kept := partial(calls);
        gone := set p | p in gone && |p| > kept;
      }
      files := files - gone;
      calls := calls + 1;
    }
  }

  predicate Below(dir: string, path: string) {
    path == dir || dir + "/" <= path
  }

  class Provider {
    const disk: Disk

    constructor (disk: Disk)
      ensures this.disk == disk
    {
      this.disk := disk;
    }

    method UploadMultipartChunk(path: string, uploadId: string, number: int, body: Bytes) returns (ok: bool)
      requires disk.Valid()
      modifies disk
      ensures disk.Valid() && disk.temps == old(disk.temps) && disk.calls >= old(disk.calls)
      ensures ok == disk.NoneFails(old(disk.calls))
      ensures ok ==> disk.files == old(disk.files)[ChunkPath(path, uploadId, number) := body]
      ensures forall p | p != ChunkPath(path, uploadId, number) ::
                (p in disk.files <==> p in old(disk.files)) && (p in disk.files ==> disk.files[p] == old(disk.files)[p])
    {
      var chunkPath := ChunkPath(path, uploadId, number);
      ok := disk.Call();
      if ok {
        ok := disk.WriteFile(chunkPath, body);
        if ok {
          assert body[..|body|] == body;
        }
      }
    }

    /** copyChunkToTemp. */
    method CopyChunkToTemp(path: string, uploadId: string, number: int, tmp: nat) returns (ok: bool)
      requires disk.Valid() && tmp in disk.temps
      modifies disk
      ensures disk.Valid() && disk.files == old(disk.files) && disk.calls > old(disk.calls)
      ensures tmp in disk.temps && disk.temps - {tmp} == old(disk.temps) - {tmp}
      ensures ok ==> ChunkPath(path, uploadId, number) in disk.files
                     && disk.temps[tmp] == old(disk.temps)[tmp] + disk.files[ChunkPath(path, uploadId, number)]
      ensures ok <==> ChunkPath(path, uploadId, number) in disk.files && disk.NoneFails(old(disk.calls))
    {
      hide ChunkPath;
      var data := disk.Open(ChunkPath(path, uploadId, number));
      if data.None? {
        return false;
      }
      ok := disk.Append(tmp, data.value);
      if ok {
        assert data.value[..|data.value|] == data.value;
      }
    }

    /** Everything between creating the temporary file and removing it. */
    method FillAndRename(path: string, uploadId: string, numbers: seq<int>, tmp: nat) returns (err: Option<Error>)
      requires disk.Valid() && tmp in disk.temps && disk.temps[tmp] == ""
      modifies disk
      ensures disk.Valid() && disk.calls > old(disk.calls) && err != Some(NoChunksProvided)
      ensures disk.temps - {tmp} == old(disk.temps) - {tmp}
      ensures err.None? <==>
                AllIn(ChunkNames(path, uploadId, numbers), old(disk.files)) && disk.NoneFails(old(disk.calls))
      ensures disk.files == if err.None?
                            then old(disk.files)[path := ConcatOf(old(disk.files), ChunkNames(path, uploadId, numbers))]
                            else old(disk.files)
    {
      hide ChunkPath, ConcatOf;
      ghost var names := ChunkNames(path, uploadId, numbers);
      ghost var files := disk.files;
      ConcatOfNone(files, names);
      for i := 0 to |numbers|
        invariant disk.Valid() && disk.files == files && disk.calls >= old(disk.calls)
        invariant tmp in disk.temps && disk.temps - {tmp} == old(disk.temps) - {tmp}
        invariant AllIn(names[..i], files) && disk.NoneFails(old(disk.calls))
        invariant disk.temps[tmp] == ConcatOf(files, names[..i])
      {
        ConcatOfNext(files, names, i);
        var ok := CopyChunkToTemp(path, uploadId, numbers[i], tmp);
        if !ok {
          assert names[i] !in files || !disk.NoneFails(old(disk.calls));
          return Some(ChunkProcess);
        }
      }
      assert names[..|numbers|] == names;
      var ok := disk.Call();
      if !ok {
        return Some(DiskError);
      }
      ok := disk.Call();
      if !ok {
        return Some(DiskError);
      }
      ok := disk.Rename(tmp, path);
      return if ok then None else Some(DiskError);
    }

    /** The file is the chunks in the caller's order, or nothing at all has changed; the upload's directory is
        cleared afterwards, a failure of which is only logged, and no temporary file stays behind. */
    method CompleteMultipartUpload(path: string, uploadId: string, numbers: seq<int>) returns (err: Option<Error>)
      requires disk.Valid()
      modifies disk
      ensures disk.Valid()
      ensures err == Some(NoChunksProvided) <==> numbers == []
      ensures disk.calls >= old(disk.calls)
      ensures err.Some? ==> disk.files == old(disk.files)
      ensures err.None? ==> Completed(path, uploadId, numbers, old(disk.files), disk.files)
      ensures disk.NoneFails(old(disk.calls)) ==> disk.temps == old(disk.temps)
      ensures disk.NoneFails(old(disk.calls)) && numbers != [] ==>
                (err.None? <==> AllIn(ChunkNames(path, uploadId, numbers), old(disk.files)))
                && (err.None? ==> forall n: int :: ChunkPath(path, uploadId, n) !in disk.files)
                && (err.None? ==> forall p | p in disk.files :: !Below(UploadDir(path, uploadId), p))
    {
      hide ConcatOf, ChunkPath, UploadDir, Below, Completed, AllIn;
      if |numbers| == 0 {
        return Some(NoChunksProvided);
      }
      var ok := disk.Call();
      if !ok {
        return Some(DiskError);
      }
      var tmp := disk.CreateTemp();
      if tmp.None? {
        return Some(DiskError);
      }
      err := FillAndRename(path, uploadId, numbers, tmp.value);
      if err.None? {
        ghost var middle := disk.files;
        var cleared := disk.RemoveAll(UploadDir(path, uploadId));
        AssembledThenCleared(path, uploadId, numbers, old(disk.files), middle, disk.files);
        if cleared {
          NoneIsLeft(path, uploadId);
        }
      }
      var removed := disk.RemoveTemp(tmp.value);
    }

    lemma NoneIsLeft(path: string, uploadId: string)
      requires forall p | p in disk.files :: !Below(UploadDir(path, uploadId), p)
      ensures forall n: int :: ChunkPath(path, uploadId, n) !in disk.files
    {
      forall n: int
        ensures Below(UploadDir(path, uploadId), ChunkPath(path, uploadId, n))
      {
      }
    }

    ghost predicate Completed(path: string, uploadId: string, numbers: seq<int>, before: map<string, Bytes>,
                              after: map<string, Bytes>) {
      && path in after
      && after[path] == ConcatOf(before, ChunkNames(path, uploadId, numbers))
      && forall p | p != path && !Below(UploadDir(path, uploadId), p) ::
           (p in before <==> p in after) && (p in before ==> after[p] == before[p])
    }

    lemma PathIsNotBelow(path: string, uploadId: string)
      ensures !Below(UploadDir(path, uploadId), path)
    {
    }

    lemma AssembledThenCleared(path: string, uploadId: string, numbers: seq<int>, before: map<string, Bytes>,
                               middle: map<string, Bytes>, after: map<string, Bytes>)
      requires middle == before[path := ConcatOf(before, ChunkNames(path, uploadId, numbers))]
      requires forall p | p in after :: p in middle && after[p] == middle[p]
      requires forall p | p in middle && !Below(UploadDir(path, uploadId), p) :: p in after
      ensures Completed(path, uploadId, numbers, before, after)
    {
      PathIsNotBelow(path, uploadId);
      hide ConcatOf, ChunkPath, UploadDir, Below;
    }

    /** The first chunks are stored, each with its own body. */
    ghost predicate Stored(path: string, uploadId: string, numbers: seq<int>, bodies: seq<Bytes>, n: nat)
      requires n <= |numbers| == |bodies|
      reads disk
    {
      forall i | 0 <= i < n ::
        var name := ChunkPath(path, uploadId, numbers[i]);
        name in disk.files && disk.files[name] == bodies[i]
    }

    lemma NoneStored(path: string, uploadId: string, numbers: seq<int>, bodies: seq<Bytes>)
      requires |numbers| == |bodies|
      ensures Stored(path, uploadId, numbers, bodies, 0)
    {
    }

    method StoreChunk(path: string, uploadId: string, numbers: seq<int>, bodies: seq<Bytes>, n: nat) returns (ok: bool)
      requires disk.Valid() && n < |numbers| == |bodies| && Distinct(numbers)
               && Stored(path, uploadId, numbers, bodies, n)
      modifies disk
      ensures disk.Valid() && disk.calls >= old(disk.calls) && ok == disk.NoneFails(old(disk.calls))
      ensures ok ==> Stored(path, uploadId, numbers, bodies, n + 1)
    {
      forall i | 0 <= i < n
        ensures ChunkPath(path, uploadId, numbers[i]) != ChunkPath(path, uploadId, numbers[n])
      {
        PathsAreDistinct(path, uploadId, numbers[i], numbers[n], 0, 0);
      }
      hide ChunkPath;
      ok := UploadMultipartChunk(path, uploadId, numbers[n], bodies[n]);
    }

    lemma StoredFlatten(path: string, uploadId: string, numbers: seq<int>, bodies: seq<Bytes>, order: seq<nat>)
      requires |numbers| == |bodies| && Stored(path, uploadId, numbers, bodies, |numbers|)
      requires forall k | k in order :: k < |bodies|
      ensures var names := ChunkNames(path, uploadId, Picked(numbers, order));
              AllIn(names, disk.files) && ConcatOf(disk.files, names) == Flatten(Picked(bodies, order))
    {
      hide ChunkPath;
      var names := ChunkNames(path, uploadId, Picked(numbers, order));
      forall i | 0 <= i < |order|
        ensures names[i] in disk.files && disk.files[names[i]] == Picked(bodies, order)[i]
      {
        assert order[i] in order;
      }
      ConcatIsFlatten(disk.files, names, Picked(bodies, order));
    }

    /** A whole upload as a caller makes it: the chunks, then their completion in whatever order the caller wants
        them. The file is those bodies in that order. */
    method UploadAll(path: string, uploadId: string, numbers: seq<int>, bodies: seq<Bytes>, order: seq<nat>)
      returns (ok: bool)
      requires disk.Valid() && |numbers| == |bodies| && Distinct(numbers) && forall k | k in order :: k < |bodies|
      modifies disk
      ensures disk.Valid()
      ensures ok ==> path in disk.files && disk.files[path] == Flatten(Picked(bodies, order))
      ensures disk.NoneFails(old(disk.calls)) ==> (ok <==> order != [])
    {
      hide ChunkPath, ConcatOf, UploadDir, Below, Stored, Flatten;
      NoneStored(path, uploadId, numbers, bodies);
      for n := 0 to |numbers|
        invariant disk.Valid() && disk.calls >= old(disk.calls)
        invariant Stored(path, uploadId, numbers, bodies, n)
      {
        ok := StoreChunk(path, uploadId, numbers, bodies, n);
        if !ok {
          return;
        }
      }
      StoredFlatten(path, uploadId, numbers, bodies, order);
      var err := CompleteMultipartUpload(path, uploadId, Picked(numbers, order));
      ok := err.None?;
    }

    // ---------- Two uploads of one file ----------

    /** Completing an upload, whether it works or not, leaves every chunk of another upload of the file as it was. */
    lemma OtherChunkStays(path: string, u: string, v: string, numbers: seq<int>, number: int,
                          before: map<string, Bytes>, after: map<string, Bytes>)
      requires Unlike(u, v)
      requires Completed(path, u, numbers, before, after) || after == before
      ensures var name := ChunkPath(path, v, number);
              (name in before <==> name in after) && (name in before ==> after[name] == before[name])
    {
      hide ConcatOf, ChunkPath, UploadDir;
      DirHoldsChunk(path, u, v, number);
      PathsAreDistinct(path, v, number, number, 0, 0);
    }

    ghost predicate Holds(path: string, u: Upload, n: nat)
      reads disk
    {
      u.Proper() && n <= |u.numbers| && Stored(path, u.id, u.numbers, u.bodies, n)
    }

    lemma StillHolds(path: string, u: string, v: Upload, n: nat, numbers: seq<int>, before: map<string, Bytes>)
      requires Unlike(u, v.id) && v.Proper() && n <= |v.numbers|
      requires forall i | 0 <= i < n ::
                 var name := ChunkPath(path, v.id, v.numbers[i]);
                 name in before && before[name] == v.bodies[i]
      requires Completed(path, u, numbers, before, disk.files) || disk.files == before
      ensures Holds(path, v, n)
    {
      hide Completed, ChunkPath;
      forall i | 0 <= i < n
        ensures var name := ChunkPath(path, v.id, v.numbers[i]);
                name in disk.files && disk.files[name] == v.bodies[i]
      {
        OtherChunkStays(path, u, v.id, numbers, v.numbers[i], before, disk.files);
      }
    }

    lemma NextIsApart(path: string, u: Upload, n: nat, v: Upload, held: nat)
      requires Unlike(u.id, v.id) && n < |u.numbers| && held <= |v.numbers| && u.Proper()
      ensures forall i | 0 <= i < held ::
                ChunkPath(path, v.id, v.numbers[i]) != ChunkPath(path, u.id, u.numbers[n])
      ensures forall i | 0 <= i < n :: ChunkPath(path, u.id, u.numbers[i]) != ChunkPath(path, u.id, u.numbers[n])
    {
      hide ChunkPath;
      forall i | 0 <= i < held
        ensures ChunkPath(path, v.id, v.numbers[i]) != ChunkPath(path, u.id, u.numbers[n])
      {
        UploadsKeepApart(path, u.id, path, v.id, u.numbers[n], v.numbers[i], 0, 0);
      }
      forall i | 0 <= i < n
        ensures ChunkPath(path, u.id, u.numbers[i]) != ChunkPath(path, u.id, u.numbers[n])
      {
        PathsAreDistinct(path, u.id, u.numbers[i], u.numbers[n], 0, 0);
      }
    }

    lemma HeldNow(path: string, w: Upload, n: nat)
      requires Holds(path, w, n)
      ensures forall i | 0 <= i < n ::
                var name := ChunkPath(path, w.id, w.numbers[i]);
                name in disk.files && disk.files[name] == w.bodies[i]
    {
    }

    lemma HeldBesides(path: string, w: Upload, n: nat, before: map<string, Bytes>, chunk: string)
      requires w.Proper() && n <= |w.numbers|
      requires forall i | 0 <= i < n ::
                 var name := ChunkPath(path, w.id, w.numbers[i]);
                 name != chunk && name in before && before[name] == w.bodies[i]
      requires forall p | p != chunk ::
                 (p in disk.files <==> p in before) && (p in disk.files ==> disk.files[p] == before[p])
      ensures Holds(path, w, n)
    {
      hide ChunkPath;
    }

    lemma HeldOneMore(path: string, w: Upload, n: nat)
      requires n < |w.numbers| && Holds(path, w, n)
      ensures var name := ChunkPath(path, w.id, w.numbers[n]);
              name in disk.files && disk.files[name] == w.bodies[n] ==> Holds(path, w, n + 1)
    {
      hide ChunkPath;
    }

    method StoreNext(path: string, u: Upload, n: nat, ghost v: Upload, ghost held: nat) returns (ok: bool)
      requires disk.Valid() && Unlike(u.id, v.id) && n < |u.numbers|
      requires Holds(path, u, n) && Holds(path, v, held)
      modifies disk
      ensures disk.Valid() && disk.calls >= old(disk.calls) && ok == disk.NoneFails(old(disk.calls))
      ensures Holds(path, v, held) && (ok ==> Holds(path, u, n + 1))
    {
      hide ChunkPath, Stored;
      NextIsApart(path, u, n, v, held);
      HeldNow(path, u, n);
      HeldNow(path, v, held);
      ghost var (before, chunk) := (disk.files, ChunkPath(path, u.id, u.numbers[n]));
      ok := UploadMultipartChunk(path, u.id, u.numbers[n], u.bodies[n]);
      HeldBesides(path, v, held, before, chunk);
      HeldBesides(path, u, n, before, chunk);
      HeldOneMore(path, u, n);
    }

    /** Completes one upload while the other is under way; what the file holds then. */
    method Finish(path: string, u: Upload, ghost v: Upload, ghost held: nat) returns (body: Option<Bytes>)
      requires disk.Valid() && Unlike(u.id, v.id)
      requires Holds(path, u, |u.numbers|) && Holds(path, v, held)
      modifies disk
      ensures disk.Valid() && disk.calls >= old(disk.calls) && Holds(path, v, held)
      ensures body.Some? ==> path in disk.files && disk.files[path] == body.value
                             && body.value == Flatten(Picked(u.bodies, u.order))
      ensures disk.NoneFails(old(disk.calls)) ==> (body.Some? <==> u.order != [])
    {
      hide ChunkPath, ConcatOf, UploadDir, Below, Flatten;
      StoredFlatten(path, u.id, u.numbers, u.bodies, u.order);
      ghost var before := disk.files;
      var err := CompleteMultipartUpload(path, u.id, Picked(u.numbers, u.order));
      StillHolds(path, u.id, v, held, Picked(u.numbers, u.order), before);
      body := if err.None? then Some(disk.files[path]) else None;
    }

    /** How far an upload has come after some turns. */
    ghost predicate After(path: string, u: Upload, turns: nat, next: nat, result: Option<Bytes>, first: nat)
      requires u.Proper()
      reads disk
    {
      && next == (if turns <= |u.numbers| then turns else |u.numbers| + 1)
      && (next <= |u.numbers| ==> Holds(path, u, next) && result.None?)
      && (result.Some? ==> result.value == Flatten(Picked(u.bodies, u.order)))
      && (disk.NoneFails(first) && next > |u.numbers| ==> (result.Some? <==> u.order != []))
    }

    ghost predicate Pair(u: Upload, v: Upload) {
      u.Proper() && v.Proper() && Unlike(u.id, v.id)
    }

    /** One upload's turn: its next chunk, or its completion once it has stored them all. */
    method Turn(path: string, u: Upload, next: nat, result: Option<Bytes>, ghost turns: nat,
                ghost v: Upload, ghost nextV: nat, ghost resultV: Option<Bytes>, ghost turnsV: nat, ghost first: nat)
      returns (ok: bool, next': nat, result': Option<Bytes>)
      requires disk.Valid() && Pair(u, v) && first <= disk.calls
      requires After(path, u, turns, next, result, first)
      requires After(path, v, turnsV, nextV, resultV, first)
      modifies disk
      ensures disk.Valid() && disk.calls >= old(disk.calls)
      ensures !ok ==> !disk.NoneFails(first) && result' == result
      ensures ok ==> After(path, u, turns + 1, next', result', first)
      ensures ok ==> After(path, v, turnsV, nextV, resultV, first)
      ensures result'.Some? ==> result'.value == Flatten(Picked(u.bodies, u.order))
    {
      hide Stored, Flatten;
      ghost var held := if nextV <= |v.numbers| then nextV else 0;
      NoneStored(path, v.id, v.numbers, v.bodies);
      ok, next', result' := true, next, result;
      if next < |u.numbers| {
        ok := StoreNext(path, u, next, v, held);
        next' := next + 1;
      } else if next == |u.numbers| {
        result' := Finish(path, u, v, held);
        next' := next + 1;
      }
    }

    /** Two uploads of one file, their chunks and completions in any order of turns. Each that completes leaves its own
        bodies in the file; without failures each completes that has had a turn for every chunk and one more. */
    method UploadBoth(path: string, u: Upload, v: Upload, turns: seq<bool>)
      returns (ru: Option<Bytes>, rv: Option<Bytes>)
      requires disk.Valid() && Pair(u, v)
      modifies disk
      ensures disk.Valid()
      ensures ru.Some? ==> ru.value == Flatten(Picked(u.bodies, u.order))
      ensures rv.Some? ==> rv.value == Flatten(Picked(v.bodies, v.order))
      ensures disk.NoneFails(old(disk.calls)) ==>
                && (ru.Some? <==> u.order != [] && multiset(turns)[true] > |u.numbers|)
                && (rv.Some? <==> v.order != [] && multiset(turns)[false] > |v.numbers|)
    {
      hide Stored, Flatten;
      ghost var first := disk.calls;
      NoneStored(path, u.id, u.numbers, u.bodies);
      NoneStored(path, v.id, v.numbers, v.bodies);
      ru, rv := None, None;
      var (nu, nv) := (0, 0);
      for i := 0 to |turns|
        invariant disk.Valid() && first <= disk.calls
        invariant After(path, u, multiset(turns[..i])[true], nu, ru, first)
        invariant After(path, v, multiset(turns[..i])[false], nv, rv, first)
      {
        ghost var (tu, tv) := (multiset(turns[..i])[true], multiset(turns[..i])[false]);
        assert turns[..i + 1] == turns[..i] + [turns[i]];
        var ok;
        if turns[i] {
          ok, nu, ru := Turn(path, u, nu, ru, tu, v, nv, rv, tv, first);
        } else {
          ok, nv, rv := Turn(path, v, nv, rv, tv, u, nu, ru, tu, first);
        }
        if !ok {
          return;
        }
      }
      assert turns[..|turns|] == turns;
    }
  }

  lemma SameChunksConcat(baseDir: string, objects: map<string, Bytes>, files: map<string, Bytes>, path: string,
                         uploadId: string, numbers: seq<int>)
    requires forall k | k in numbers ::
               var chunk := ChunkPath(path, uploadId, k);
               chunk in files && GcsStorage.FullName(baseDir, chunk) in objects
               && files[chunk] == objects[GcsStorage.FullName(baseDir, chunk)]
    ensures ConcatOf(objects, GcsStorage.FullNames(baseDir, ChunkNames(path, uploadId, numbers)))
         == ConcatOf(files, ChunkNames(path, uploadId, numbers))
  {
    hide ChunkPath, GcsStorage.FullName, ConcatOf;
    assert forall i | 0 <= i < |numbers| :: numbers[i] in numbers;
    ConcatOfSame(objects, GcsStorage.FullNames(baseDir, ChunkNames(path, uploadId, numbers)),
                 files, ChunkNames(path, uploadId, numbers));
  }

  /** An upload completed in a bucket and on a disk from the same chunks leaves the same bytes in both, whatever the
      bucket's base directory. */
  lemma ProvidersAgree(client: GcsStorage.Client, provider: Provider, path: string, uploadId: string, numbers: seq<int>,
                       objects: map<string, Bytes>, objects': map<string, Bytes>,
                       files: map<string, Bytes>, files': map<string, Bytes>)
    requires client.Completed(path, uploadId, numbers, objects, objects')
    requires provider.Completed(path, uploadId, numbers, files, files')
    requires forall k | k in numbers ::
               var chunk := ChunkPath(path, uploadId, k);
               chunk in files && client.Full(chunk) in objects && files[chunk] == objects[client.Full(chunk)]
    ensures objects'[client.Full(path)] == files'[path]
  {
    SameChunksConcat(client.baseDir, objects, files, path, uploadId, numbers);
  }
}
