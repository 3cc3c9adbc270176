/** Multipart uploads on Google Cloud Storage: chunks as objects, assembled by composition (gcs/gcs.go). */
module GcsStorage {
  import opened Common
  import opened MultipartPaths

  const MAX_COMPOSE_SOURCES := 32

  datatype Error = NoChunks | BucketError

  /** A bucket: what is stored, and for the n-th request whether the service fails it. A failed request changes
      nothing. `composes` records the number of sources of every compose request. */
  class Bucket {
    var objects: map<string, Bytes>
    const fails: nat -> bool
    var requests: nat
    ghost var composes: seq<nat>

    constructor (fails: nat -> bool)
      ensures objects == map[] && requests == 0 && composes == []
    {
      this.fails := fails;
      objects, requests, composes := map[], 0, [];
    }

    /** The service's own rules for a compose: one to 32 sources, all of them present. */
    ghost predicate Accepts(sources: seq<string>)
      reads this
    {
      1 <= |sources| <= 32 && forall n | n in sources :: n in objects
    }

    method Compose(target: string, sources: seq<string>) returns (ok: bool)
      modifies this
      ensures requests == old(requests) + 1 && composes == old(composes) + [|sources|]
      ensures ok == (!fails(old(requests)) && old(Accepts(sources)))
      ensures objects == if ok then old(objects)[target := old(ConcatOf(objects, sources))] else old(objects)
    {
      ok := !fails(requests) && 1 <= |sources| <= 32 && forall n | n in sources :: n in objects;
      if ok {
        objects := objects[target := ConcatOf(objects, sources)];
      }
      requests, composes := requests + 1, composes + [|sources|];
    }

    method Put(name: string, body: Bytes) returns (ok: bool)
      modifies this
      ensures requests == old(requests) + 1 && composes == old(composes)
      ensures ok == !fails(old(requests))
      ensures objects == if ok then old(objects)[name := body] else old(objects)
    {
      ok := !fails(requests);
      if ok {
        objects := objects[name := body];
      }
      requests := requests + 1;
    }

    method Delete(name: string) returns (ok: bool)
      modifies this
      ensures requests == old(requests) + 1 && composes == old(composes)
      ensures ok == (!fails(old(requests)) && name in old(objects))
      ensures objects == if ok then old(objects) - {name} else old(objects)
    {
      ok := !fails(requests) && name in objects;
      if ok {
        objects := objects - {name};
      }
      requests := requests + 1;
    }

    /** What only succeeds or fails: opening the client, or reading a page of a listing. */
    method Call() returns (ok: bool)
      modifies this`requests
      ensures requests == old(requests) + 1 && ok == !fails(old(requests))
    {
      ok := !fails(requests);
      requests := requests + 1;
    }
  }

  function FullName(baseDir: string, name: string): string {
    if baseDir != "" then baseDir + "/" + name else name
  }

  function FullNames(baseDir: string, names: seq<string>): seq<string> {
    seq(|names|, i requires 0 <= i < |names| => FullName(baseDir, names[i]))
  }

  lemma FullNameInjective(baseDir: string, a: string, b: string)
    ensures FullName(baseDir, a) == FullName(baseDir, b) <==> a == b
  {
    assert baseDir != "" ==> FullName(baseDir, a)[|baseDir| + 1..] == a && FullName(baseDir, b)[|baseDir| + 1..] == b;
  }

  /** Two base directories without a slash in them never share an object, whatever the names. */
  lemma BaseDirsKeepApart(baseDir: string, baseDir': string, name: string, name': string)
    requires baseDir != "" && baseDir' != "" && '/' !in baseDir && '/' !in baseDir'
    ensures FullName(baseDir, name) == FullName(baseDir', name') <==> baseDir == baseDir' && name == name'
    ensures baseDir <= FullName(baseDir, name)
  {
    var (a, b) := (FullName(baseDir, name), FullName(baseDir', name'));
    assert a[|baseDir|] == b[|baseDir'|] == '/';
    assert a[..|baseDir|] == baseDir && b[..|baseDir'|] == baseDir';
    assert a == b ==> |baseDir| == |baseDir'| by {
      assert forall k | 0 <= k < |baseDir| :: a[k] in baseDir;
      assert forall k | 0 <= k < |baseDir'| :: b[k] in baseDir';
    }
    assert a[|baseDir| + 1..] == name && b[|baseDir'| + 1..] == name';
  }

  class Client {
    const baseDir: string
    const bucket: Bucket
    var connected: bool

    constructor (baseDir: string, bucket: Bucket)
      ensures this.baseDir == baseDir && this.bucket == bucket && !connected
    {
      this.baseDir, this.bucket, connected := baseDir, bucket, false;
    }

    /** Opens the service's client on first use, and again after a failure. */
    method Init() returns (ok: bool)
      modifies this`connected, bucket`requests
      ensures old(bucket.requests) <= bucket.requests && connected == ok
      ensures old(connected) ==> ok && bucket.requests == old(bucket.requests)
      ensures ok == NoneFails(old(bucket.requests), bucket.requests)
    {
      if connected {
        return true;
      }
      connected := bucket.Call();
      return connected;
    }

    function Full(name: string): string {
      FullName(baseDir, name)
    }

    /** The stored name of a group object of an upload. */
    ghost predicate IsGroup(objectName: string, uploadId: string, key: string) {
      exists g: nat :: key == Full(GroupPath(objectName, uploadId, g))
    }

    /** Nothing but the target and groups of this upload has changed. */
    ghost predicate Spared(objectName: string, uploadId: string, before: map<string, Bytes>,
                           after: map<string, Bytes>) {
      forall key | key != Full(objectName) && !IsGroup(objectName, uploadId, key) ::
        (key in before <==> key in after) && (key in before ==> before[key] == after[key])
    }

    /** Like Spared, for the target as well. */
    ghost predicate Untouched(objectName: string, uploadId: string, before: map<string, Bytes>,
                              after: map<string, Bytes>) {
      forall key | !IsGroup(objectName, uploadId, key) ::
        (key in before <==> key in after) && (key in before ==> before[key] == after[key])
    }

    method ComposeOnce(targetName: string, sourceNames: seq<string>) returns (ok: bool)
      modifies bucket
      ensures bucket.requests == old(bucket.requests) + 1 && bucket.composes == old(bucket.composes) + [|sourceNames|]
      ensures ok == (!bucket.fails(old(bucket.requests)) && old(bucket.Accepts(FullNames(baseDir, sourceNames))))
      ensures var body := old(ConcatOf(bucket.objects, FullNames(baseDir, sourceNames)));
              bucket.objects == if ok then old(bucket.objects)[Full(targetName) := body] else old(bucket.objects)
    {
      var sourceObjects := new string[|sourceNames|];
      for i := 0 to |sourceNames|
        invariant unchanged(bucket)
        invariant forall j | 0 <= j < i :: sourceObjects[j] == Full(sourceNames[j])
      {
        sourceObjects[i] := Full(sourceNames[i]);
      }
      assert sourceObjects[..] == FullNames(baseDir, sourceNames);
      ok := bucket.Compose(Full(targetName), sourceObjects[..]);
    }

    function GroupNames(objectName: string, uploadId: string, groups: nat): seq<string> {
      seq(groups, g requires 0 <= g < groups => GroupPath(objectName, uploadId, g))
    }

    /** How many chunks the first groups take. */
    function Covered(total: nat, groups: nat): nat {
      if groups * MAX_COMPOSE_SOURCES < total then groups * MAX_COMPOSE_SOURCES else total
    }

    /** The state between two group composes: the groups so far hold, together, the chunks taken so far. */
    ghost predicate Grouped(objectName: string, uploadId: string, taken: seq<string>, before: map<string, Bytes>,
                            now: map<string, Bytes>, groups: nat)
    {
      var names := FullNames(baseDir, GroupNames(objectName, uploadId, groups));
      && Untouched(objectName, uploadId, before, now)
      && AllIn(names, now) && AllIn(FullNames(baseDir, taken), before)
      && ConcatOf(now, names) == ConcatOf(before, FullNames(baseDir, taken))
    }

    lemma ChunkIsNoGroup(objectName: string, uploadId: string, number: int)
      ensures !IsGroup(objectName, uploadId, Full(ChunkPath(objectName, uploadId, number)))
    {
      forall g: nat
        ensures Full(ChunkPath(objectName, uploadId, number)) != Full(GroupPath(objectName, uploadId, g))
      {
        PathsAreDistinct(objectName, uploadId, number, number, g, g);
        FullNameInjective(baseDir, ChunkPath(objectName, uploadId, number), GroupPath(objectName, uploadId, g));
      }
    }

    lemma ObjectIsNoGroup(objectName: string, uploadId: string)
      ensures !IsGroup(objectName, uploadId, Full(objectName))
    {
      forall g: nat
        ensures Full(objectName) != Full(GroupPath(objectName, uploadId, g))
      {
        PathsAreDistinct(objectName, uploadId, 0, 0, g, g);
        FullNameInjective(baseDir, objectName, GroupPath(objectName, uploadId, g));
      }
    }

    /** Chunks read the same before and after any number of group composes. */
    lemma ChunksReadTheSame(objectName: string, uploadId: string, numbers: seq<int>, before: map<string, Bytes>,
                            now: map<string, Bytes>)
      requires Untouched(objectName, uploadId, before, now)
      ensures var names := FullNames(baseDir, ChunkNames(objectName, uploadId, numbers));
              && (AllIn(names, now) <==> AllIn(names, before))
              && (AllIn(names, before) ==> ConcatOf(now, names) == ConcatOf(before, names))
    {
      var names := FullNames(baseDir, ChunkNames(objectName, uploadId, numbers));
      forall i | 0 <= i < |names|
        ensures !IsGroup(objectName, uploadId, names[i])
      {
        ChunkIsNoGroup(objectName, uploadId, numbers[i]);
      }
      assert forall n | n in names :: !IsGroup(objectName, uploadId, n);
      if AllIn(names, before) {
        ConcatOfSame(now, names, before, names);
      }
    }

    lemma FullNamesSplit(a: seq<string>, b: seq<string>)
      ensures FullNames(baseDir, a + b) == FullNames(baseDir, a) + FullNames(baseDir, b)
    {
    }

    lemma ConcatOfOne(store: map<string, Bytes>, name: string)
      requires name in store
      ensures ConcatOf(store, [name]) == store[name]
    {
      assert [name][..0] == [];
    }

    lemma GroupIsNew(objectName: string, uploadId: string, groups: nat)
      ensures var names := FullNames(baseDir, GroupNames(objectName, uploadId, groups));
              Full(GroupPath(objectName, uploadId, groups)) !in names
    {
      forall i | 0 <= i < groups
        ensures Full(GroupPath(objectName, uploadId, i)) != Full(GroupPath(objectName, uploadId, groups))
      {
        PathsAreDistinct(objectName, uploadId, 0, 0, i, groups);
        FullNameInjective(baseDir, GroupPath(objectName, uploadId, i), GroupPath(objectName, uploadId, groups));
      }
    }

    lemma ConcatWithNew(store: map<string, Bytes>, names: seq<string>, name: string, body: Bytes)
      requires AllIn(names, store) && name !in names
      ensures AllIn(names + [name], store[name := body])
      ensures ConcatOf(store[name := body], names + [name]) == ConcatOf(store, names) + body
    {
      var grown := store[name := body];
      ConcatOfSame(grown, names, store, names);
      ConcatOfSplit(grown, names, [name]);
      ConcatOfOne(grown, name);
    }

    /** A new group object leaves the earlier ones alone. */
    lemma GroupNamesGrow(objectName: string, uploadId: string, now: map<string, Bytes>, g: nat, body: Bytes)
      requires AllIn(FullNames(baseDir, GroupNames(objectName, uploadId, g)), now)
      ensures var grown := now[Full(GroupPath(objectName, uploadId, g)) := body];
              && AllIn(FullNames(baseDir, GroupNames(objectName, uploadId, g + 1)), grown)
              && ConcatOf(grown, FullNames(baseDir, GroupNames(objectName, uploadId, g + 1)))
                 == ConcatOf(now, FullNames(baseDir, GroupNames(objectName, uploadId, g))) + body
    {
      hide GroupPath, FullName, ConcatOf, AllIn;
      var key := Full(GroupPath(objectName, uploadId, g));
      var names := FullNames(baseDir, GroupNames(objectName, uploadId, g));
      GroupIsNew(objectName, uploadId, g);
      ConcatWithNew(now, names, key, body);
      assert FullNames(baseDir, GroupNames(objectName, uploadId, g + 1)) == names + [key];
    }

    /** One more group compose, of the chunks that follow those taken. */
    lemma GroupAdded(objectName: string, uploadId: string, taken: seq<string>, numbers: seq<int>,
                     before: map<string, Bytes>, now: map<string, Bytes>, g: nat)
      requires Grouped(objectName, uploadId, taken, before, now, g)
      requires AllIn(FullNames(baseDir, ChunkNames(objectName, uploadId, numbers)), now)
      ensures var slice := ChunkNames(objectName, uploadId, numbers);
              Grouped(objectName, uploadId, taken + slice, before,
                      now[Full(GroupPath(objectName, uploadId, g)) := ConcatOf(now, FullNames(baseDir, slice))], g + 1)
    {
      var slice := ChunkNames(objectName, uploadId, numbers);
      var body := ConcatOf(now, FullNames(baseDir, slice));
      ChunksReadTheSame(objectName, uploadId, numbers, before, now);
      GroupNamesGrow(objectName, uploadId, now, g, body);
      FullNamesSplit(taken, slice);
      ConcatOfSplit(before, FullNames(baseDir, taken), FullNames(baseDir, slice));
      assert IsGroup(objectName, uploadId, Full(GroupPath(objectName, uploadId, g)));
    }

    ghost predicate NoneFails(first: nat, end: nat) {
      forall r: nat | first <= r < end :: !bucket.fails(r)
    }

    /** Every size from the given place on is one the service takes. */
    ghost predicate SizesFit(composes: seq<nat>, first: nat) {
      forall i | first <= i < |composes| :: 1 <= composes[i] <= 32
    }

    lemma ChunkSlice(objectName: string, uploadId: string, numbers: seq<int>, lo: nat, hi: nat)
      requires lo <= hi <= |numbers|
      ensures ChunkNames(objectName, uploadId, numbers)[lo..hi] == ChunkNames(objectName, uploadId, numbers[lo..hi])
      ensures ChunkNames(objectName, uploadId, numbers)[..lo] + ChunkNames(objectName, uploadId, numbers[lo..hi])
           == ChunkNames(objectName, uploadId, numbers)[..hi]
    {
    }

    /** Between two group composes: nothing has failed, and the groups hold the first chunks. */
    ghost predicate GroupsDone(objectName: string, uploadId: string, chunkPaths: seq<string>,
                               before: map<string, Bytes>, requests: nat, composes: seq<nat>, g: nat)
      reads bucket
    {
      && Grouped(objectName, uploadId, chunkPaths[..Covered(|chunkPaths|, g)], before, bucket.objects, g)
      && requests <= bucket.requests && NoneFails(requests, bucket.requests)
      && composes <= bucket.composes && SizesFit(bucket.composes, |composes|)
    }

    /** Stopped on the way: only groups were written, and either a chunk is missing or a request failed. */
    ghost predicate Abandoned(objectName: string, uploadId: string, chunkPaths: seq<string>, before: map<string, Bytes>,
                              requests: nat, composes: seq<nat>)
      reads bucket
    {
      && Untouched(objectName, uploadId, before, bucket.objects)
      && requests <= bucket.requests
      && !(AllIn(FullNames(baseDir, chunkPaths), before) && NoneFails(requests, bucket.requests))
      && composes <= bucket.composes && SizesFit(bucket.composes, |composes|)
    }

    lemma MissingInSlice(objectName: string, uploadId: string, numbers: seq<int>, lo: nat, hi: nat,
                         before: map<string, Bytes>, now: map<string, Bytes>)
      requires lo <= hi <= |numbers| && Untouched(objectName, uploadId, before, now)
      requires !AllIn(FullNames(baseDir, ChunkNames(objectName, uploadId, numbers[lo..hi])), now)
      ensures !AllIn(FullNames(baseDir, ChunkNames(objectName, uploadId, numbers)), before)
    {
      hide ChunkPath, FullName;
      var (all, slice) := (FullNames(baseDir, ChunkNames(objectName, uploadId, numbers)),
                           FullNames(baseDir, ChunkNames(objectName, uploadId, numbers[lo..hi])));
      ChunksReadTheSame(objectName, uploadId, numbers[lo..hi], before, now);
      var n :| n in slice && n !in before;
      var i :| 0 <= i < |slice| && slice[i] == n;
      assert all[lo + i] == n;
    }

    /** One pass of the loop over the groups. */
    method ComposeGroup(objectName: string, uploadId: string, chunkPaths: seq<string>, groupId: nat,
                        ghost numbers: seq<int>, ghost before: map<string, Bytes>, ghost requests: nat,
                        ghost composes: seq<nat>)
      returns (ok: bool)
      requires chunkPaths == ChunkNames(objectName, uploadId, numbers)
      requires groupId * MAX_COMPOSE_SOURCES < |chunkPaths|
      requires GroupsDone(objectName, uploadId, chunkPaths, before, requests, composes, groupId)
      modifies bucket
      ensures if ok then GroupsDone(objectName, uploadId, chunkPaths, before, requests, composes, groupId + 1)
              else Abandoned(objectName, uploadId, chunkPaths, before, requests, composes)
    {
      hide GroupPath, ChunkPath, FullName, ConcatOf, IsGroup;
      var startIdx := groupId * MAX_COMPOSE_SOURCES;
      var endIdx := startIdx + MAX_COMPOSE_SOURCES;
      if endIdx > |chunkPaths| {
        endIdx := |chunkPaths|;
      }
      var groupPath := GroupPath(objectName, uploadId, groupId);
      ghost var now := bucket.objects;
      ghost var slice := numbers[startIdx..endIdx];
      ChunkSlice(objectName, uploadId, numbers, startIdx, endIdx);
      ok := ComposeOnce(groupPath, chunkPaths[startIdx..endIdx]);
      if ok {
        GroupAdded(objectName, uploadId, chunkPaths[..startIdx], slice, before, now, groupId);
      } else if !AllIn(FullNames(baseDir, ChunkNames(objectName, uploadId, slice)), now) {
        MissingInSlice(objectName, uploadId, numbers, startIdx, endIdx, before, now);
      }
    }

    lemma NothingGroupedYet(objectName: string, uploadId: string, chunkPaths: seq<string>)
      ensures GroupsDone(objectName, uploadId, chunkPaths, bucket.objects, bucket.requests, bucket.composes, 0)
    {
    }

    /** Whether and how the object was assembled, against the store and the request count before. */
    ghost predicate Assembled(objectName: string, uploadId: string, chunkPaths: seq<string>, before: map<string, Bytes>,
                              requests: nat, ok: bool)
      reads bucket
    {
      && requests <= bucket.requests
      && (ok <==> 1 <= |chunkPaths| <= MAX_COMPOSE_SOURCES * MAX_COMPOSE_SOURCES
                  && AllIn(FullNames(baseDir, chunkPaths), before) && NoneFails(requests, bucket.requests))
      && (ok ==> Spared(objectName, uploadId, before, bucket.objects) && Full(objectName) in bucket.objects
                 && bucket.objects[Full(objectName)] == ConcatOf(before, FullNames(baseDir, chunkPaths)))
      && (!ok ==> Untouched(objectName, uploadId, before, bucket.objects))
    }

    /** Compose the chunks into groups and the groups into the object; directly when they are few enough. It works
        for exactly 1 to 1024 chunks, and then no request has more than 32 sources; when it does not work the
        object is as it was. */
    method ComposeAll(objectName: string, uploadId: string, chunkPaths: seq<string>, ghost numbers: seq<int>)
      returns (ok: bool)
      requires chunkPaths == ChunkNames(objectName, uploadId, numbers)
      modifies bucket
      ensures Assembled(objectName, uploadId, chunkPaths, old(bucket.objects), old(bucket.requests), ok)
      ensures old(bucket.composes) <= bucket.composes
      ensures 1 <= |numbers| <= MAX_COMPOSE_SOURCES * MAX_COMPOSE_SOURCES ==>
                SizesFit(bucket.composes, old(|bucket.composes|))
    {
      ObjectIsNoGroup(objectName, uploadId);
      hide GroupPath, ChunkPath, FullName, ConcatOf, IsGroup;
      if |chunkPaths| <= MAX_COMPOSE_SOURCES {
        ok := ComposeOnce(objectName, chunkPaths);
        return;
      }
      var groupPaths := [];
      ghost var (before, requests, composes) := (bucket.objects, bucket.requests, bucket.composes);
      var groupId := 0;
      NothingGroupedYet(objectName, uploadId, chunkPaths);
      while groupId * MAX_COMPOSE_SOURCES < |chunkPaths|
        invariant groupPaths == GroupNames(objectName, uploadId, groupId)
        invariant (groupId - 1) * MAX_COMPOSE_SOURCES < |chunkPaths|
        invariant GroupsDone(objectName, uploadId, chunkPaths, before, requests, composes, groupId)
        decreases |chunkPaths| - groupId * MAX_COMPOSE_SOURCES
      {
        ok := ComposeGroup(objectName, uploadId, chunkPaths, groupId, numbers, before, requests, composes);
        if !ok {
          return;
        }
        groupPaths := groupPaths + [GroupPath(objectName, uploadId, groupId)];
        groupId := groupId + 1;
      }
      assert chunkPaths[..|chunkPaths|] == chunkPaths;
      ok := ComposeOnce(objectName, groupPaths);
    }

    method UploadMultipartChunk(objectName: string, uploadId: string, number: int, body: Bytes) returns (ok: bool)
      modifies this`connected, bucket
      ensures old(bucket.requests) <= bucket.requests
      ensures ok == NoneFails(old(bucket.requests), bucket.requests)
      ensures bucket.objects == if ok then old(bucket.objects)[Full(ChunkPath(objectName, uploadId, number)) := body]
                                else old(bucket.objects)
    {
      ok := Init();
      if ok {
        ok := bucket.Put(Full(ChunkPath(objectName, uploadId, number)), body);
      }
    }

    /** Only objects whose stored name starts with the prefix may be gone; the others are as they were. */
    ghost predicate PrefixCleared(prefix: string, before: map<string, Bytes>, after: map<string, Bytes>, all: bool) {
      && (forall key | key in after :: key in before && after[key] == before[key])
      && (forall key | key in before && !(prefix <= key) :: key in after)
      && (all ==> forall key | key in after :: !(prefix <= key))
    }

    /** Deletes every object under the prefix, in whatever order the listing gives them; stops at the first failure. */
    method DeleteDir(objectName: string) returns (ok: bool)
      modifies this`connected, bucket
      ensures bucket.requests >= old(bucket.requests) && bucket.composes == old(bucket.composes)
      ensures PrefixCleared(Full(objectName), old(bucket.objects), bucket.objects, ok)
      ensures NoneFails(old(bucket.requests), bucket.requests) ==> ok
    {
      ok := Init();
      if !ok {
        return;
      }
      var prefix := Full(objectName);
      var listed := set key | key in bucket.objects && prefix <= key;
      while true
        invariant bucket.requests >= old(bucket.requests) && bucket.composes == old(bucket.composes)
        invariant listed == set key | key in bucket.objects && prefix <= key
        invariant PrefixCleared(prefix, old(bucket.objects), bucket.objects, false)
        decreases listed
      {
        ok := bucket.Call();
        if !ok {
          return;
        }
        if listed == {} {
          assert forall key | key in bucket.objects && prefix <= key :: key in listed;
          break;
        }
        var name :| name in listed;
        ok := bucket.Delete(name);
        if !ok {
          return;
        }
        listed := listed - {name};
      }
    }

    /** After a completed upload: the object is the chunks in the caller's order, and nothing outside the upload's
        own prefix has changed. */
    ghost predicate Completed(objectName: string, uploadId: string, numbers: seq<int>, before: map<string, Bytes>,
                              after: map<string, Bytes>) {
      && Full(objectName) in after
      && after[Full(objectName)] == ConcatOf(before, FullNames(baseDir, ChunkNames(objectName, uploadId, numbers)))
      && forall key | key != Full(objectName) && !(Full(UploadDir(objectName, uploadId)) <= key) ::
           (key in before <==> key in after) && (key in before ==> after[key] == before[key])
    }

    lemma GroupsHavePrefix(objectName: string, uploadId: string, key: string)
      requires IsGroup(objectName, uploadId, key)
      ensures Full(UploadDir(objectName, uploadId)) <= key
    {
    }

    lemma TargetHasNoPrefix(objectName: string, uploadId: string)
      ensures !(Full(UploadDir(objectName, uploadId)) <= Full(objectName))
    {
    }

    lemma AssembledThenCleared(objectName: string, uploadId: string, numbers: seq<int>, before: map<string, Bytes>,
                               middle: map<string, Bytes>, after: map<string, Bytes>, all: bool)
      requires Full(objectName) in middle
      requires middle[Full(objectName)]
                 == ConcatOf(before, FullNames(baseDir, ChunkNames(objectName, uploadId, numbers)))
      requires Spared(objectName, uploadId, before, middle)
      requires PrefixCleared(Full(UploadDir(objectName, uploadId)), middle, after, all)
      ensures Completed(objectName, uploadId, numbers, before, after)
    {
      TargetHasNoPrefix(objectName, uploadId);
      hide ConcatOf, ChunkPath, FullName, UploadDir;
      forall key | key != Full(objectName) && !(Full(UploadDir(objectName, uploadId)) <= key)
        ensures (key in before <==> key in after) && (key in before ==> after[key] == before[key])
      {
        if IsGroup(objectName, uploadId, key) {
          GroupsHavePrefix(objectName, uploadId, key);
        }
      }
    }

    lemma PrefixHoldsAll(objectName: string, uploadId: string, objects: map<string, Bytes>)
      requires forall key | key in objects :: !(Full(UploadDir(objectName, uploadId)) <= key)
      ensures forall n :: Full(ChunkPath(objectName, uploadId, n)) !in objects
      ensures forall key | key in objects :: !IsGroup(objectName, uploadId, key)
    {
      forall n: int
        ensures Full(UploadDir(objectName, uploadId)) <= Full(ChunkPath(objectName, uploadId, n))
      {
      }
      forall key | key in objects
        ensures !IsGroup(objectName, uploadId, key)
      {
        if IsGroup(objectName, uploadId, key) {
          GroupsHavePrefix(objectName, uploadId, key);
        }
      }
    }

    /** Assembles the object from its chunks and clears the upload's prefix; a failure to clear is only logged. */
    method CompleteMultipartUpload(objectName: string, uploadId: string, numbers: seq<int>) returns (err: Option<Error>)
      modifies this`connected, bucket
      ensures err == Some(NoChunks) <==> numbers == []
      ensures numbers == [] ==> bucket.objects == old(bucket.objects)
      ensures old(bucket.requests) <= bucket.requests
      ensures err.None? ==> 1 <= |numbers| <= MAX_COMPOSE_SOURCES * MAX_COMPOSE_SOURCES
                            && AllIn(FullNames(baseDir, ChunkNames(objectName, uploadId, numbers)), old(bucket.objects))
                            && Completed(objectName, uploadId, numbers, old(bucket.objects), bucket.objects)
      ensures err.Some? ==> Untouched(objectName, uploadId, old(bucket.objects), bucket.objects)
      ensures NoneFails(old(bucket.requests), bucket.requests)
              && AllIn(FullNames(baseDir, ChunkNames(objectName, uploadId, numbers)), old(bucket.objects))
              && 1 <= |numbers| <= MAX_COMPOSE_SOURCES * MAX_COMPOSE_SOURCES
              ==> err.None? && (forall n: int :: Full(ChunkPath(objectName, uploadId, n)) !in bucket.objects)
                  && (forall key | key in bucket.objects :: !IsGroup(objectName, uploadId, key))
                  && (forall key | key in bucket.objects :: !(Full(UploadDir(objectName, uploadId)) <= key))
      ensures 1 <= |numbers| <= MAX_COMPOSE_SOURCES * MAX_COMPOSE_SOURCES ==>
                SizesFit(bucket.composes, old(|bucket.composes|))
    {
      hide ConcatOf, ChunkPath, FullName, UploadDir, IsGroup;
      if |numbers| == 0 {
        return Some(NoChunks);
      }
      var ready := Init();
      if !ready {
        return Some(BucketError);
      }
      ghost var requests := bucket.requests;
      var chunkPaths := [];
      for i := 0 to |numbers|
        invariant bucket.objects == old(bucket.objects) && bucket.requests == requests
                  && bucket.composes == old(bucket.composes)
        invariant chunkPaths == ChunkNames(objectName, uploadId, numbers)[..i]
      {
        chunkPaths := chunkPaths + [ChunkPath(objectName, uploadId, numbers[i])];
      }
      assert chunkPaths == ChunkNames(objectName, uploadId, numbers);
      var ok := ComposeAll(objectName, uploadId, chunkPaths, numbers);
      if !ok {
        return Some(BucketError);
      }
      ghost var middle := bucket.objects;
      var cleared := DeleteDir(UploadDir(objectName, uploadId));
      AssembledThenCleared(objectName, uploadId, numbers, old(bucket.objects), middle, bucket.objects, cleared);
      if cleared {
        PrefixHoldsAll(objectName, uploadId, bucket.objects);
      }
      return None;
    }

    /** The first chunks are stored, each with its own body. */
    ghost predicate Stored(objectName: string, uploadId: string, numbers: seq<int>, bodies: seq<Bytes>, n: nat)
      requires n <= |numbers| == |bodies|
      reads bucket
    {
      forall i | 0 <= i < n ::
        var name := Full(ChunkPath(objectName, uploadId, numbers[i]));
        name in bucket.objects && bucket.objects[name] == bodies[i]
    }

    method StoreChunk(objectName: string, uploadId: string, numbers: seq<int>, bodies: seq<Bytes>, n: nat)
      returns (ok: bool)
      requires n < |numbers| == |bodies| && Distinct(numbers) && Stored(objectName, uploadId, numbers, bodies, n)
      modifies this`connected, bucket
      ensures old(bucket.requests) <= bucket.requests && ok == NoneFails(old(bucket.requests), bucket.requests)
      ensures ok ==> Stored(objectName, uploadId, numbers, bodies, n + 1)
    {
      forall i | 0 <= i < n
        ensures Full(ChunkPath(objectName, uploadId, numbers[i])) != Full(ChunkPath(objectName, uploadId, numbers[n]))
      {
        PathsAreDistinct(objectName, uploadId, numbers[i], numbers[n], 0, 0);
        FullNameInjective(baseDir, ChunkPath(objectName, uploadId, numbers[i]),
                          ChunkPath(objectName, uploadId, numbers[n]));
      }
      hide ChunkPath, FullName;
      ok := UploadMultipartChunk(objectName, uploadId, numbers[n], bodies[n]);
    }

    lemma StoredFlatten(objectName: string, uploadId: string, numbers: seq<int>, bodies: seq<Bytes>, order: seq<nat>)
      requires |numbers| == |bodies| && Stored(objectName, uploadId, numbers, bodies, |numbers|)
      requires forall k | k in order :: k < |bodies|
      ensures var names := FullNames(baseDir, ChunkNames(objectName, uploadId, Picked(numbers, order)));
              AllIn(names, bucket.objects) && ConcatOf(bucket.objects, names) == Flatten(Picked(bodies, order))
    {
      hide ChunkPath, FullName;
      var names := FullNames(baseDir, ChunkNames(objectName, uploadId, Picked(numbers, order)));
      forall i | 0 <= i < |order|
        ensures names[i] in bucket.objects && bucket.objects[names[i]] == Picked(bodies, order)[i]
      {
        assert order[i] in order;
      }
      ConcatIsFlatten(bucket.objects, names, Picked(bodies, order));
    }

    /** A whole upload as a caller makes it: the chunks, then their completion in whatever order the caller wants
        them. The object is those bodies in that order. */
    method UploadAll(objectName: string, uploadId: string, numbers: seq<int>, bodies: seq<Bytes>, order: seq<nat>)
      returns (ok: bool)
      requires |numbers| == |bodies| && Distinct(numbers) && forall k | k in order :: k < |bodies|
      modifies this`connected, bucket
      ensures ok ==> Full(objectName) in bucket.objects
                     && bucket.objects[Full(objectName)] == Flatten(Picked(bodies, order))
      ensures NoneFails(old(bucket.requests), bucket.requests) ==>
                (ok <==> 1 <= |order| <= 1024)
    {
      hide ChunkPath, ConcatOf, FullName, UploadDir, Stored, Flatten, IsGroup;
      NoneStored(objectName, uploadId, numbers, bodies);
      for n := 0 to |numbers|
        invariant Stored(objectName, uploadId, numbers, bodies, n)
        invariant old(bucket.requests) <= bucket.requests
      {
        ok := StoreChunk(objectName, uploadId, numbers, bodies, n);
        if !ok {
          return;
        }
      }
      StoredFlatten(objectName, uploadId, numbers, bodies, order);
      var err := CompleteMultipartUpload(objectName, uploadId, Picked(numbers, order));
      ok := err.None?;
    }

    lemma NoneStored(objectName: string, uploadId: string, numbers: seq<int>, bodies: seq<Bytes>)
      requires |numbers| == |bodies|
      ensures Stored(objectName, uploadId, numbers, bodies, 0)
    {
    }

    // ---------- Two uploads of one object ----------

    lemma FullPrefix(a: string, b: string)
      ensures Full(a) <= Full(b) <==> a <= b
    {
      PrefixAfter(if baseDir != "" then baseDir + "/" else "", a, b);
    }

    /** Completing an upload, whether it works or not, leaves every chunk of another upload of the object as it was. */
    lemma OtherChunkStays(objectName: string, u: string, v: string, numbers: seq<int>, number: int,
                          before: map<string, Bytes>, after: map<string, Bytes>)
      requires Unlike(u, v) && !(u <= v)
      requires Completed(objectName, u, numbers, before, after) || Untouched(objectName, u, before, after)
      ensures var key := Full(ChunkPath(objectName, v, number));
              (key in before <==> key in after) && (key in before ==> after[key] == before[key])
    {
      hide ConcatOf, ChunkPath, GroupPath, UploadDir, FullName;
      var key := ChunkPath(objectName, v, number);
      DirHoldsChunk(objectName, u, v, number);
      FullPrefix(UploadDir(objectName, u), key);
      PathsAreDistinct(objectName, v, number, number, 0, 0);
      FullNameInjective(baseDir, objectName, key);
      forall g: nat
        ensures Full(key) != Full(GroupPath(objectName, u, g))
      {
        UploadsKeepApart(objectName, v, objectName, u, number, 0, 0, g);
        FullNameInjective(baseDir, key, GroupPath(objectName, u, g));
      }
    }

    /** And that is why ids must not start one another: where one does, completing its upload clears the other's
        chunks. */
    lemma ClearsLongerIds(objectName: string, u: string, v: string, number: int, after: map<string, Bytes>)
      requires Unlike(u, v) && u <= v
      requires forall key | key in after :: !(Full(UploadDir(objectName, u)) <= key)
      ensures Full(ChunkPath(objectName, v, number)) !in after
    {
      DirHoldsChunk(objectName, u, v, number);
      FullPrefix(UploadDir(objectName, u), ChunkPath(objectName, v, number));
    }

    ghost predicate Holds(objectName: string, u: Upload, n: nat)
      reads bucket
    {
      u.Proper() && n <= |u.numbers| && Stored(objectName, u.id, u.numbers, u.bodies, n)
    }

    lemma StillHolds(objectName: string, u: string, v: Upload, n: nat, numbers: seq<int>, before: map<string, Bytes>)
      requires Unlike(u, v.id) && !(u <= v.id) && v.Proper() && n <= |v.numbers|
      requires forall i | 0 <= i < n ::
                 var name := Full(ChunkPath(objectName, v.id, v.numbers[i]));
                 name in before && before[name] == v.bodies[i]
      requires Completed(objectName, u, numbers, before, bucket.objects)
               || Untouched(objectName, u, before, bucket.objects)
      ensures Holds(objectName, v, n)
    {
      hide Completed, Untouched, ChunkPath, FullName;
      forall i | 0 <= i < n
        ensures var name := Full(ChunkPath(objectName, v.id, v.numbers[i]));
                name in bucket.objects && bucket.objects[name] == v.bodies[i]
      {
        OtherChunkStays(objectName, u, v.id, numbers, v.numbers[i], before, bucket.objects);
      }
    }

    lemma NextIsApart(objectName: string, u: Upload, n: nat, v: Upload, held: nat)
      requires Unlike(u.id, v.id) && n < |u.numbers| && held <= |v.numbers| && u.Proper()
      ensures forall i | 0 <= i < held ::
                Full(ChunkPath(objectName, v.id, v.numbers[i])) != Full(ChunkPath(objectName, u.id, u.numbers[n]))
      ensures forall i | 0 <= i < n ::
                Full(ChunkPath(objectName, u.id, u.numbers[i])) != Full(ChunkPath(objectName, u.id, u.numbers[n]))
    {
      hide ChunkPath, FullName;
      forall i | 0 <= i < held
        ensures Full(ChunkPath(objectName, v.id, v.numbers[i])) != Full(ChunkPath(objectName, u.id, u.numbers[n]))
      {
        UploadsKeepApart(objectName, u.id, objectName, v.id, u.numbers[n], v.numbers[i], 0, 0);
        FullNameInjective(baseDir, ChunkPath(objectName, v.id, v.numbers[i]),
                          ChunkPath(objectName, u.id, u.numbers[n]));
      }
      forall i | 0 <= i < n
        ensures Full(ChunkPath(objectName, u.id, u.numbers[i])) != Full(ChunkPath(objectName, u.id, u.numbers[n]))
      {
        PathsAreDistinct(objectName, u.id, u.numbers[i], u.numbers[n], 0, 0);
        FullNameInjective(baseDir, ChunkPath(objectName, u.id, u.numbers[i]),
                          ChunkPath(objectName, u.id, u.numbers[n]));
      }
    }

    method StoreNext(objectName: string, u: Upload, n: nat, ghost v: Upload, ghost held: nat) returns (ok: bool)
      requires Unlike(u.id, v.id) && n < |u.numbers|
      requires Holds(objectName, u, n) && Holds(objectName, v, held)
      modifies this`connected, bucket
      ensures old(bucket.requests) <= bucket.requests && ok == NoneFails(old(bucket.requests), bucket.requests)
      ensures Holds(objectName, v, held) && (ok ==> Holds(objectName, u, n + 1))
    {
      NextIsApart(objectName, u, n, v, held);
      hide ChunkPath, FullName;
      ok := UploadMultipartChunk(objectName, u.id, u.numbers[n], u.bodies[n]);
    }

    /** Completes one upload while the other is under way; what the object holds then. */
    method Finish(objectName: string, u: Upload, ghost v: Upload, ghost held: nat) returns (body: Option<Bytes>)
      requires Unlike(u.id, v.id) && !(u.id <= v.id)
      requires Holds(objectName, u, |u.numbers|) && Holds(objectName, v, held)
      modifies this`connected, bucket
      ensures old(bucket.requests) <= bucket.requests && Holds(objectName, v, held)
      ensures body.Some? ==> Full(objectName) in bucket.objects && bucket.objects[Full(objectName)] == body.value
                             && body.value == Flatten(Picked(u.bodies, u.order))
      ensures NoneFails(old(bucket.requests), bucket.requests) ==> (body.Some? <==> Composable(u))
    {
      hide ChunkPath, ConcatOf, FullName, UploadDir, Flatten, IsGroup, Untouched;
      StoredFlatten(objectName, u.id, u.numbers, u.bodies, u.order);
      ghost var before := bucket.objects;
      var err := CompleteMultipartUpload(objectName, u.id, Picked(u.numbers, u.order));
      NothingWritten(objectName, u.id, before);
      StillHolds(objectName, u.id, v, held, Picked(u.numbers, u.order), before);
      body := if err.None? then Some(bucket.objects[Full(objectName)]) else None;
    }

    lemma NothingWritten(objectName: string, u: string, before: map<string, Bytes>)
      ensures bucket.objects == before ==> Untouched(objectName, u, before, bucket.objects)
    {
    }

    predicate Composable(u: Upload) {
      1 <= |u.order| <= 1024
    }

    /** How far an upload has come after some turns. */
    ghost predicate After(objectName: string, u: Upload, turns: nat, next: nat, result: Option<Bytes>, first: nat)
      requires u.Proper()
      reads bucket
    {
      && next == (if turns <= |u.numbers| then turns else |u.numbers| + 1)
      && (next <= |u.numbers| ==> Holds(objectName, u, next) && result.None?)
      && (result.Some? ==> result.value == Flatten(Picked(u.bodies, u.order)))
      && (NoneFails(first, bucket.requests) && next > |u.numbers| ==> (result.Some? <==> Composable(u)))
    }

    /** Uploads whose prefixes do not hold each other's chunks; UUIDs are of one length, so theirs never do. */
    ghost predicate Pair(u: Upload, v: Upload) {
      u.Proper() && v.Proper() && Unlike(u.id, v.id) && !(u.id <= v.id) && !(v.id <= u.id)
    }

    /** One upload's turn: its next chunk, or its completion once it has stored them all. */
    method Turn(objectName: string, u: Upload, next: nat, result: Option<Bytes>, ghost turns: nat,
                ghost v: Upload, ghost nextV: nat, ghost resultV: Option<Bytes>, ghost turnsV: nat, ghost first: nat)
      returns (ok: bool, next': nat, result': Option<Bytes>)
      requires Pair(u, v) && first <= bucket.requests
      requires After(objectName, u, turns, next, result, first)
      requires After(objectName, v, turnsV, nextV, resultV, first)
      modifies this`connected, bucket
      ensures old(bucket.requests) <= bucket.requests
      ensures !ok ==> !NoneFails(first, bucket.requests) && result' == result
      ensures ok ==> After(objectName, u, turns + 1, next', result', first)
      ensures ok ==> After(objectName, v, turnsV, nextV, resultV, first)
      ensures result'.Some? ==> result'.value == Flatten(Picked(u.bodies, u.order))
    {
      hide Stored, Flatten;
      ghost var held := if nextV <= |v.numbers| then nextV else 0;
      NoneStored(objectName, v.id, v.numbers, v.bodies);
      ok, next', result' := true, next, result;
      if next < |u.numbers| {
        ok := StoreNext(objectName, u, next, v, held);
        next' := next + 1;
      } else if next == |u.numbers| {
        result' := Finish(objectName, u, v, held);
        next' := next + 1;
      }
    }

    /** Two uploads of one object, their chunks and completions in any order of turns. Each that completes leaves its
        own bodies in the object; without failures each completes that has had a turn for every chunk and one more. */
    method UploadBoth(objectName: string, u: Upload, v: Upload, turns: seq<bool>)
      returns (ru: Option<Bytes>, rv: Option<Bytes>)
      requires Pair(u, v)
      modifies this`connected, bucket
      ensures ru.Some? ==> ru.value == Flatten(Picked(u.bodies, u.order))
      ensures rv.Some? ==> rv.value == Flatten(Picked(v.bodies, v.order))
      ensures NoneFails(old(bucket.requests), bucket.requests) ==>
                && (ru.Some? <==> Composable(u) && multiset(turns)[true] > |u.numbers|)
                && (rv.Some? <==> Composable(v) && multiset(turns)[false] > |v.numbers|)
    {
      hide Stored, Flatten;
      ghost var first := bucket.requests;
      NoneStored(objectName, u.id, u.numbers, u.bodies);
      NoneStored(objectName, v.id, v.numbers, v.bodies);
      ru, rv := None, None;
      var (nu, nv) := (0, 0);
      for i := 0 to |turns|
        invariant first <= bucket.requests
        invariant After(objectName, u, multiset(turns[..i])[true], nu, ru, first)
        invariant After(objectName, v, multiset(turns[..i])[false], nv, rv, first)
      {
        ghost var (tu, tv) := (multiset(turns[..i])[true], multiset(turns[..i])[false]);
        assert turns[..i + 1] == turns[..i] + [turns[i]];
        var ok;
        if turns[i] {
          ok, nu, ru := Turn(objectName, u, nu, ru, tu, v, nv, rv, tv, first);
        } else {
          ok, nv, rv := Turn(objectName, v, nv, rv, tv, u, nu, ru, tu, first);
        }
        if !ok {
          return;
        }
      }
      assert turns[..|turns|] == turns;
    }
  }
}
