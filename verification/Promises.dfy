/** The promise object and its mutex sections (promise/promise.go). */
module Promises {
  import opened Common

  datatype Error =
    | AlreadyResolved
    | NotResolved
    | ChannelClosed
    | NilError
    | PromiseResolved
    | User(code: nat)

  /** An either.EitherError. */
  datatype Outcome<T> = Value(value: T) | Failure(error: Error)

  /** A Go channel of capacity one, with a count of the sends and closes it has seen and the values received
      from it. `owner` is the Get call that made it; channels handed out by Chan have none. */
  datatype Chan<T> = Chan(buffer: seq<Outcome<T>>, closed: bool, got: seq<Outcome<T>>, sends: nat, closes: nat,
                          owner: Option<nat>)
  {
    /** A send neither panics nor blocks. */
    predicate CanSend() {
      !closed && buffer == []
    }

    function Send(o: Outcome<T>): Chan<T> {
      this.(buffer := buffer + [o], sends := sends + 1)
    }

    function Close(): Chan<T> {
      this.(closed := true, closes := closes + 1)
    }

    function Receive(): Chan<T>
      requires buffer != []
    {
      this.(buffer := buffer[1..], got := got + [buffer[0]])
    }

    /** As made: open, empty, never used. */
    ghost predicate Untouched() {
      this == Chan([], false, [], 0, 0, owner)
    }

    /** Sent to once, then closed once; the value is in the buffer or has been received. */
    ghost predicate SettledWith(o: Outcome<T>) {
      closed && sends == closes == 1 && got + buffer == [o]
    }
  }

  function MakeChan<T>(owner: Option<nat>): Chan<T> {
    Chan([], false, [], 0, 0, owner)
  }

  /** What complete does to the channels it is given, one after the other. */
  function Settle<T>(heap: seq<Chan<T>>, ids: seq<nat>, o: Outcome<T>): (r: seq<Chan<T>>)
    requires AllBelow(ids, |heap|)
    ensures |r| == |heap|
    decreases |ids|
  {
    if ids == [] then heap else Settle(heap[ids[0] := heap[ids[0]].Send(o).Close()], ids[1..], o)
  }

  predicate AllBelow(ids: seq<nat>, n: nat) {
    forall i | 0 <= i < |ids| :: ids[i] < n
  }

  /** Settling distinct untouched channels gives each of them the outcome once and leaves every other one alone. */
  lemma {:induction false} SettleTouchesEachOnce<T>(heap: seq<Chan<T>>, ids: seq<nat>, o: Outcome<T>, k: nat)
    requires Distinct(ids) && k < |heap|
    requires AllBelow(ids, |heap|)
    ensures Settle(heap, ids, o)[k] == if k in ids then heap[k].Send(o).Close() else heap[k]
    decreases |ids|
  {
    if ids != [] {
      SettleTouchesEachOnce(heap[ids[0] := heap[ids[0]].Send(o).Close()], ids[1..], o, k);
      assert ids == [ids[0]] + ids[1..];
      assert ids[0] !in ids[1..];
    }
  }

  /** The outcome fields, read the way getResolvedValue reads them. */
  function ResolvedValue<T>(value: Option<T>, error: Option<Error>, resolved: bool,
                            checkForResolved: bool): Outcome<T> {
    if checkForResolved && !resolved then Failure(NotResolved)
    else if value.Some? then Value(value.value)
    else if error.Some? then Failure(error.value)
    else Failure(PromiseResolved)
  }

  class Promise<T> {
    var value: Option<T>
    var error: Option<Error>
    var channels: seq<nat>
    var resolved: bool
    var heap: seq<Chan<T>>    // every channel this promise has made

    ghost predicate Valid()
      reads this
    {
      && (if resolved then value.Some? != error.Some? else value.None? && error.None?)
      && (resolved ==> channels == [])
      && Distinct(channels)
      && AllBelow(channels, |heap|)
      && (forall i | 0 <= i < |channels| :: heap[channels[i]].Untouched())
    }

    constructor ()
      ensures Valid() && !resolved && heap == []
    {
      value, error, channels, resolved, heap := None, None, [], false, [];
    }

    method Resolve(v: T) returns (err: Option<Error>)
      requires Valid()
      modifies this
      ensures Valid() && resolved
      ensures old(resolved) ==> err == Some(AlreadyResolved) && unchanged(this)
      ensures !old(resolved) ==> err == None && value == Some(v) && error == None
      ensures !old(resolved) ==> heap == old(Settle(heap, channels, Value(v)))
    {
      if resolved {
        return Some(AlreadyResolved);
      }
      value := Some(v);
      Complete();
      return None;
    }

    method Reject(e: Option<Error>) returns (err: Option<Error>)
      requires Valid()
      modifies this
      ensures Valid()
      ensures e.None? ==> err == Some(NilError) && unchanged(this)
      ensures e.Some? && old(resolved) ==> err == Some(AlreadyResolved) && unchanged(this)
      ensures e.Some? && !old(resolved) ==> err == None && resolved && value == None && error == e
      ensures e.Some? && !old(resolved) ==> heap == old(Settle(heap, channels, Failure(e.value)))
    {
      if e.None? {
        return Some(NilError);
      }
      if resolved {
        return Some(AlreadyResolved);
      }
      error := e;
      Complete();
      return None;
    }

    /** Runs with the mutex held, right after the outcome was stored. */
    method Complete()
      requires !resolved && value.Some? != error.Some?
      requires Distinct(channels) && AllBelow(channels, |heap|)
      requires forall i | 0 <= i < |channels| :: heap[channels[i]].Untouched()
      modifies this
      ensures Valid() && resolved && value == old(value) && error == old(error)
      ensures heap == old(Settle(heap, channels, ResolvedValue(value, error, true, false)))
    {
      resolved := true;
      var result := ResolvedValue(value, error, resolved, false);
      ghost var all := channels;
      ghost var settled := Settle(heap, all, result);
      assert all[0..] == all;
      for i := 0 to |channels|
        invariant channels == all && value == old(value) && error == old(error) && resolved
        invariant |heap| == old(|heap|)
        invariant forall j | i <= j < |all| :: heap[all[j]].Untouched()
        invariant Settle(heap, all[i..], result) == settled
      {
        var ch := channels[i];
        ghost var before := heap;
        assert all[i..][0] == ch && all[i..][1..] == all[i + 1..];
        assert heap[ch].CanSend();
        heap := heap[ch := heap[ch].Send(result)];
        assert !heap[ch].closed;
        heap := heap[ch := heap[ch].Close()];
        assert heap == before[ch := before[ch].Send(result).Close()];
      }
      channels := [];
    }

    method AddChannel(owner: Option<nat>) returns (ch: nat)
      requires Valid()
      modifies this
      ensures Valid() && value == old(value) && error == old(error) && resolved == old(resolved)
      ensures ch == old(|heap|)
      ensures resolved ==> channels == old(channels)
                           && var result := ResolvedValue(value, error, resolved, true);
                              heap == old(heap) + [MakeChan(owner).Send(result).Close()]
      ensures !resolved ==> channels == old(channels) + [ch] && heap == old(heap) + [MakeChan(owner)]
    {
      ch := |heap|;
      heap := heap + [MakeChan(owner)];
      if resolved {
        heap := heap[ch := heap[ch].Send(ResolvedValue(value, error, resolved, true))];
        heap := heap[ch := heap[ch].Close()];
        return;
      }
      assert forall i | 0 <= i < |channels| :: channels[i] != ch;
      channels := channels + [ch];
    }

    method RemoveChannel(ch: nat) returns (removed: bool)
      requires Valid() && ch < |heap|
      modifies this
      ensures Valid() && value == old(value) && error == old(error) && resolved == old(resolved)
      ensures removed == !resolved
      ensures resolved || ch !in old(channels) ==> unchanged(this)
      ensures !resolved && ch in old(channels) ==>
                channels == Without(old(channels), ch) && heap == old(heap)[ch := old(heap)[ch].Close()]
    {
      if resolved {
        return false;
      }
      for index := 0 to |channels|
        invariant unchanged(this)
        invariant ch !in channels[..index]
      {
        if channels[index] == ch {
          WithoutAt(channels, index);
          channels := channels[..index] + channels[index + 1..];
          heap := heap[ch := heap[ch].Close()];
          return true;
        }
      }
      return true;
    }
  }

  /** The list with every occurrence of one id dropped. */
  function Without(ids: seq<nat>, ch: nat): seq<nat> {
    if ids == [] then []
    else if ids[0] == ch then Without(ids[1..], ch)
    else [ids[0]] + Without(ids[1..], ch)
  }

  lemma {:induction false} WithoutMembers(ids: seq<nat>, ch: nat, x: nat)
    ensures x in Without(ids, ch) <==> x in ids && x != ch
  {
    if ids != [] {
      WithoutMembers(ids[1..], ch, x);
      assert ids == [ids[0]] + ids[1..];
    }
  }

  lemma {:induction false} WithoutAbsent(ids: seq<nat>, ch: nat)
    requires ch !in ids
    ensures Without(ids, ch) == ids
  {
    if ids != [] {
      WithoutAbsent(ids[1..], ch);
    }
  }

  lemma DistinctTail(ids: seq<nat>)
    requires ids != [] && Distinct(ids)
    ensures Distinct(ids[1..])
  {
  }

  lemma {:induction false} WithoutAt(ids: seq<nat>, index: nat)
    requires index < |ids| && Distinct(ids)
    ensures Without(ids, ids[index]) == ids[..index] + ids[index + 1..]
  {
    if index == 0 {
      WithoutAbsent(ids[1..], ids[0]);
    } else {
      assert ids[0] != ids[index];
      DistinctTail(ids);
      WithoutAt(ids[1..], index - 1);
      assert ids[1..][..index - 1] == ids[1..index];
      assert ids[..index] == [ids[0]] + ids[1..index];
    }
  }
}
