/** Processing of consumed records: retries, attempt counts, partition stops and commits (kafka/consumer.go). */
module KafkaConsumer {
  import opened Common
  import opened Retries

  datatype Partition = Partition(topic: string, number: int)

  /** A consumed record, by where it lies. */
  datatype Record = Record(partition: Partition, offset: int)

  /** What happens to a record, in order. A round is one retry.Do of the handler. */
  datatype Event =
    | Undecodable(record: Record)
    | RoundFailed(record: Record)
    | Succeeded(record: Record)      // attempts entry deleted
    | Exhausted(record: Record)      // attempts entry deleted
    | AutoCommit(record: Record)

  datatype Action = ActionRetry | ActionStop | ActionSkip

  /** How processRecord ended. */
  datatype Ending =
    | DecodeRejected     // the decode error handler said stop
    | DecodeSkipped
    | Handled
    | GaveUp             // every attempt failed; skipped
    | GaveUpRejected     // every attempt failed and the failed-message handler said stop
    | Interrupted        // the context ended first

  function Stops(e: Ending): bool {
    e.DecodeRejected? || e.GaveUpRejected? || e.Interrupted?
  }

  // ---------- Reading the log ----------

  predicate Disposes(e: Event, r: Record) {
    e == Succeeded(r) || e == Exhausted(r)
  }

  /** Failed rounds of a record since it was last disposed of. */
  function FailedSince(log: seq<Event>, r: Record): nat {
    if log == [] then 0
    else
      var (before, last) := (log[..|log| - 1], log[|log| - 1]);
      if Disposes(last, r) then 0
      else FailedSince(before, r) + if last == RoundFailed(r) then 1 else 0
  }

  function AutoCommits(log: seq<Event>): seq<Record> {
    if log == [] then []
    else AutoCommits(log[..|log| - 1]) + if log[|log| - 1].AutoCommit? then [log[|log| - 1].record] else []
  }

  function Repeat<T>(x: T, n: nat): seq<T> {
    seq(n, _ => x)
  }

  /** The events of one processed record. */
  function EventsOf(r: Record, rounds: nat, ending: Ending, autoCommit: bool): seq<Event> {
    var commit := if autoCommit then [AutoCommit(r)] else [];
    match ending
    case DecodeRejected => [Undecodable(r)]
    case DecodeSkipped => [Undecodable(r)] + commit
    case Handled => Repeat(RoundFailed(r), rounds) + [Succeeded(r)] + commit
    case GaveUp => Repeat(RoundFailed(r), rounds) + commit + [Exhausted(r)]
    case GaveUpRejected => Repeat(RoundFailed(r), rounds) + [Exhausted(r)]
    case Interrupted => Repeat(RoundFailed(r), rounds)
  }

  lemma {:induction false} FailedSinceAppend(log: seq<Event>, r: Record, e: Event)
    ensures FailedSince(log + [e], r) == if Disposes(e, r) then 0
                                         else FailedSince(log, r) + if e == RoundFailed(r) then 1 else 0
  {
    assert (log + [e])[..|log|] == log;
  }

  lemma {:induction false} AutoCommitsConcat(a: seq<Event>, b: seq<Event>)
    ensures AutoCommits(a + b) == AutoCommits(a) + AutoCommits(b)
  {
    if b == [] {
      assert a + b == a;
    } else {
      AutoCommitsConcat(a, b[..|b| - 1]);
      assert (a + b)[..|a + b| - 1] == a + b[..|b| - 1];
    }
  }

  lemma {:induction false} NoCommitInRounds(r: Record, n: nat)
    ensures AutoCommits(Repeat(RoundFailed(r), n)) == []
  {
    if n > 0 {
      NoCommitInRounds(r, n - 1);
      assert Repeat(RoundFailed(r), n)[..n - 1] == Repeat(RoundFailed(r), n - 1);
    }
  }

  /** With AutoCommit every record that does not stop its partition is committed once, and no other. */
  lemma CommitsOf(r: Record, rounds: nat, ending: Ending, autoCommit: bool)
    ensures AutoCommits(EventsOf(r, rounds, ending, autoCommit)) == if autoCommit && !Stops(ending) then [r] else []
  {
    NoCommitInRounds(r, rounds);
    var failed := Repeat(RoundFailed(r), rounds);
    var commit := if autoCommit then [AutoCommit(r)] else [];
    assert AutoCommits(commit) == if autoCommit then [r] else [];
    assert AutoCommits([Undecodable(r)]) == AutoCommits([Succeeded(r)]) == AutoCommits([Exhausted(r)]) == [];
    match ending
    case DecodeRejected =>
    case DecodeSkipped => AutoCommitsConcat([Undecodable(r)], commit);
    case Handled =>
      AutoCommitsConcat(failed, [Succeeded(r)]);
      AutoCommitsConcat(failed + [Succeeded(r)], commit);
    case GaveUp =>
      AutoCommitsConcat(failed, commit);
      AutoCommitsConcat(failed + commit, [Exhausted(r)]);
    case GaveUpRejected => AutoCommitsConcat(failed, [Exhausted(r)]);
    case Interrupted =>
  }

  // ---------- One poll ----------

  /** One retry.Do of the handler, and the looks at the context between it and the next. */
  datatype Try = Try(start: Point, after: Point, end: Point)

  /** One record processed: the rounds it took and how it ended. */
  datatype Processing = Processing(record: Record, tries: seq<Try>, ending: Ending) {
    predicate Stopped() {
      Stops(ending)
    }

    /** The rounds that failed. */
    function Rounds(): nat {
      if ending.Handled? && |tries| > 0 then |tries| - 1 else |tries|
    }

    function Events(autoCommit: bool): seq<Event> {
      EventsOf(record, Rounds(), ending, autoCommit)
    }
  }

  function RecordsIn(records: seq<Record>, p: Partition): seq<Record> {
    if records == [] then []
    else RecordsIn(records[..|records| - 1], p)
         + if records[|records| - 1].partition == p then [records[|records| - 1]] else []
  }

  function DoneIn(done: seq<Processing>, p: Partition): seq<Processing> {
    if done == [] then []
    else DoneIn(done[..|done| - 1], p)
         + if done[|done| - 1].record.partition == p then [done[|done| - 1]] else []
  }

  /** The records that did not stop their partition, in the order they were processed. */
  function Unstopped(done: seq<Processing>): seq<Record> {
    if done == [] then []
    else Unstopped(done[..|done| - 1]) + if done[|done| - 1].Stopped() then [] else [done[|done| - 1].record]
  }

  /** Of a partition's records exactly those up to and including the first stop were processed, in order. */
  ghost predicate UpToFirstStop(done: seq<Processing>, records: seq<Record>) {
    && |done| <= |records|
    && (forall i | 0 <= i < |done| :: done[i].record == records[i])
    && (forall i | 0 <= i < |done| - 1 :: !done[i].Stopped())
    && (|done| < |records| ==> done != [] && done[|done| - 1].Stopped())
  }

  ghost predicate PollState(failed: bool, done: seq<Processing>, records: seq<Record>) {
    && UpToFirstStop(done, records)
    && (failed <==> done != [] && done[|done| - 1].Stopped())
  }

  ghost predicate PollOk(records: seq<Record>, done: seq<Processing>, failed: set<Partition>) {
    forall p: Partition :: PollState(p in failed, DoneIn(done, p), RecordsIn(records, p))
  }

  /** A record of this partition has stopped it. */
  ghost predicate HasStopped(done: seq<Processing>, p: Partition) {
    exists i | 0 <= i < |done| :: done[i].record.partition == p && done[i].Stopped()
  }

  /** Fetch order, without the records of a partition after it was stopped. */
  ghost predicate InOrder(records: seq<Record>, done: seq<Processing>) {
    if records == [] then done == []
    else
      var (before, r) := (records[..|records| - 1], records[|records| - 1]);
      || (HasStopped(done, r.partition) && InOrder(before, done))
      || (done != [] && done[|done| - 1].record == r && !HasStopped(done[..|done| - 1], r.partition)
          && InOrder(before, done[..|done| - 1]))
  }

  lemma {:induction false} StoppedIn(done: seq<Processing>, p: Partition)
    ensures HasStopped(done, p) <==> exists i | 0 <= i < |DoneIn(done, p)| :: DoneIn(done, p)[i].Stopped()
  {
    if done != [] {
      var (before, last) := (done[..|done| - 1], done[|done| - 1]);
      StoppedIn(before, p);
      assert HasStopped(done, p) <==> HasStopped(before, p) || (last.record.partition == p && last.Stopped()) by {
        if i :| 0 <= i < |done| && done[i].record.partition == p && done[i].Stopped() {
          assert i < |before| ==> before[i] == done[i];
        }
        if i :| 0 <= i < |before| && before[i].record.partition == p && before[i].Stopped() {
          assert done[i] == before[i];
        }
      }
      if last.record.partition == p {
        assert DoneIn(done, p) == DoneIn(before, p) + [last];
        var n := |DoneIn(before, p)|;
        assert DoneIn(done, p)[n] == last;
        assert forall i | 0 <= i < n :: DoneIn(done, p)[i] == DoneIn(before, p)[i];
      } else {
        assert DoneIn(done, p) == DoneIn(before, p);
      }
    }
  }

  lemma FailedAreStopped(records: seq<Record>, done: seq<Processing>, failed: set<Partition>, p: Partition)
    requires PollOk(records, done, failed)
    ensures p in failed <==> HasStopped(done, p)
  {
    StoppedIn(done, p);
    assert PollState(p in failed, DoneIn(done, p), RecordsIn(records, p));
  }

  lemma PassedOver(records: seq<Record>, i: nat, done: seq<Processing>, failed: set<Partition>)
    requires i < |records| && PollOk(records[..i], done, failed) && records[i].partition in failed
    ensures PollOk(records[..i + 1], done, failed)
  {
    assert records[..i + 1][..i] == records[..i];
    forall p: Partition
      ensures PollState(p in failed, DoneIn(done, p), RecordsIn(records[..i + 1], p))
    {
      assert PollState(p in failed, DoneIn(done, p), RecordsIn(records[..i], p));
    }
  }

  lemma OneMoreDone(done: seq<Processing>, records: seq<Record>, p: Processing)
    requires PollState(false, done, records)
    ensures PollState(p.Stopped(), done + [p], records + [p.record])
  {
    assert |done| == |records|;
  }

  lemma WasProcessed(records: seq<Record>, i: nat, done: seq<Processing>, failed: set<Partition>, one: Processing)
    requires i < |records| && PollOk(records[..i], done, failed) && records[i].partition !in failed
    requires one.record == records[i]
    ensures PollOk(records[..i + 1], done + [one], if one.Stopped() then failed + {one.record.partition} else failed)
  {
    var r := records[i];
    assert records[..i + 1][..i] == records[..i];
    var more := done + [one];
    assert more[..|more| - 1] == done;
    var now := if one.Stopped() then failed + {r.partition} else failed;
    forall p: Partition
      ensures PollState(p in now, DoneIn(more, p), RecordsIn(records[..i + 1], p))
    {
      var (d, rs) := (DoneIn(done, p), RecordsIn(records[..i], p));
      assert PollState(p in failed, d, rs);
      if p == r.partition {
        OneMoreDone(d, rs, one);
      } else {
        assert DoneIn(more, p) == d + [] == d;
        assert RecordsIn(records[..i + 1], p) == rs + [] == rs;
      }
    }
  }

  // ---------- What the world is asked ----------

  datatype Question =
    | Decode(record: Record)
    | DecodeHandler(record: Record)
    | FailedHandler(record: Record)
    | Commit(record: Record)

  function Commits(asked: seq<Question>): seq<Record> {
    if asked == [] then []
    else Commits(asked[..|asked| - 1]) + if asked[|asked| - 1].Commit? then [asked[|asked| - 1].record] else []
  }

  lemma {:induction false} CommitsConcat(a: seq<Question>, b: seq<Question>)
    ensures Commits(a + b) == Commits(a) + Commits(b)
  {
    if b == [] {
      assert a + b == a;
    } else {
      CommitsConcat(a, b[..|b| - 1]);
      assert (a + b)[..|a + b| - 1] == a + b[..|b| - 1];
    }
  }

  /** The log, the questions asked so far, and how far the handler and the context have come. */
  datatype Moment = Moment(log: seq<Event>, asked: seq<Question>, at: Point)

  // ---------- Attempt counts ----------

  /** The map holds, for exactly the records with failed rounds since disposal, how many there were. */
  ghost predicate Counts(attempts: map<Record, int>, log: seq<Event>) {
    && (forall r | r in attempts :: attempts[r] >= 1)
    && (forall r: Record :: FailedSince(log, r) == if r in attempts then attempts[r] else 0)
  }

  function CountOf(attempts: map<Record, int>, r: Record): int {
    if r in attempts then attempts[r] else 0
  }

  lemma CountFailed(attempts: map<Record, int>, log: seq<Event>, record: Record)
    requires Counts(attempts, log)
    ensures Counts(attempts[record := CountOf(attempts, record) + 1], log + [RoundFailed(record)])
  {
    forall r: Record {
      FailedSinceAppend(log, r, RoundFailed(record));
    }
  }

  lemma CountDisposed(attempts: map<Record, int>, log: seq<Event>, record: Record, e: Event)
    requires Counts(attempts, log) && Disposes(e, record)
    ensures Counts(attempts - {record}, log + [e])
  {
    forall r: Record {
      FailedSinceAppend(log, r, e);
    }
  }

  lemma CountUnmoved(attempts: map<Record, int>, log: seq<Event>, e: Event)
    requires Counts(attempts, log) && (e.AutoCommit? || e.Undecodable?)
    ensures Counts(attempts, log + [e])
  {
    forall r: Record {
      FailedSinceAppend(log, r, e);
    }
  }

  // ---------- The consumer ----------

  /** Everything outside. The n-th question is answered with a failure or a rejection when `answer(n)`. */
  class World {
    const answer: nat -> bool
    const handler: Operation<()>
    const context: Context
    var asked: seq<Question>

    constructor (answer: nat -> bool, handler: Operation<()>, context: Context)
      ensures this.answer == answer && this.handler == handler && this.context == context && asked == []
    {
      this.answer, this.handler, this.context, asked := answer, handler, context, [];
    }

    method Ask(q: Question) returns (b: bool)
      modifies this
      ensures asked == old(asked) + [q] && b == answer(|old(asked)|)
    {
      b := answer(|asked|);
      asked := asked + [q];
    }
  }

  class Consumer {
    const autoCommit: bool
    const policy: Option<Policy>
    const maxProcessingAttempts: int
    const hasDecodeErrorHandler: bool
    const hasFailedMessageHandler: bool
    const world: World
    var attempts: map<Record, int>
    ghost var log: seq<Event>

    /** The attempt counts are the failed rounds since disposal, each below the limit. */
    ghost predicate Valid()
      reads this
    {
      if maxProcessingAttempts <= 0 then attempts == map[]
      else
        && Counts(attempts, log)
        && (forall r | r in attempts :: attempts[r] < maxProcessingAttempts)
    }

    ghost function Now(): Moment
      reads this, world, world.handler, world.context
    {
      Moment(log, world.asked, Point(world.handler.calls, world.context.looks))
    }

    /** Without an attempt limit a record is retried until the handler succeeds or the context ends; a call of
        processRecord returns exactly when one of them happens. */
    ghost predicate RoundsEnd() {
      maxProcessingAttempts > 0 || world.context.liveLooks.Some? || HandlerKeepsSucceeding()
    }

    ghost predicate HandlerKeepsSucceeding() {
      forall n: nat :: SucceedsFrom(n)
    }

    ghost predicate SucceedsFrom(n: nat) {
      exists k: nat :: k >= n && SucceedsAt(k)
    }

    ghost predicate SucceedsAt(k: nat) {
      world.handler.answer(k).err.None?
    }

    constructor (autoCommit: bool, policy: Option<Policy>, maxProcessingAttempts: int, hasDecodeErrorHandler: bool,
                 hasFailedMessageHandler: bool, world: World)
      ensures Valid() && log == []
    {
      this.autoCommit, this.policy, this.maxProcessingAttempts := autoCommit, policy, maxProcessingAttempts;
      this.hasDecodeErrorHandler, this.hasFailedMessageHandler := hasDecodeErrorHandler, hasFailedMessageHandler;
      this.world := world;
      attempts, log := map[], [];
    }

    // ----- One record, as the answers decide it -----

    ghost predicate Made(t: Try) {
      Retried(world.context, policy, world.handler, t.start, t.after)
    }

    ghost predicate Failed(t: Try) {
      RetryFailed(world.handler, t.start, t.after)
    }

    /** The looks before a record is tried again: one, and a second for the default delay without a policy. */
    ghost predicate LookedLive(p: Point, q: Point) {
      && q.calls == p.calls && !world.context.DoneAt(p.looks)
      && if policy.None? then q.looks == p.looks + 2 && !world.context.DoneAt(p.looks + 1) else q.looks == p.looks + 1
    }

    ghost predicate LookedDone(p: Point, q: Point) {
      && q.calls == p.calls
      && if world.context.DoneAt(p.looks) then q.looks == p.looks + 1
         else policy.None? && world.context.DoneAt(p.looks + 1) && q.looks == p.looks + 2
    }

    /** A failed round after which the record is tried again. */
    ghost predicate TriedAgain(t: Try) {
      Made(t) && Failed(t) && LookedLive(t.after, t.end)
    }

    ghost predicate Again(tries: seq<Try>, p: Point, q: Point) {
      if tries == [] then p == q
      else
        var t := tries[|tries| - 1];
        Again(tries[..|tries| - 1], p, t.start) && TriedAgain(t) && t.end == q
    }

    /** The last round of a record. */
    ghost predicate TryEnds(t: Try, ending: Ending) {
      && Made(t)
      && match ending
         case Handled => !Failed(t) && t.end == t.after
         case GaveUp => Failed(t) && t.end == t.after
         case GaveUpRejected => Failed(t) && t.end == t.after
         case Interrupted => Failed(t) && LookedDone(t.after, t.end)
         case _ => false
    }

    /** A record is given up after exactly maxProcessingAttempts failed rounds since it was last disposed of, counting
        those of earlier deliveries, and is never handled or interrupted beyond that. */
    ghost predicate Accounted(failed: nat, ending: Ending) {
      if ending.GaveUp? || ending.GaveUpRejected? then maxProcessingAttempts > 0 && failed == maxProcessingAttempts
      else maxProcessingAttempts > 0 ==> failed < maxProcessingAttempts
    }

    /** The handler loop from its first round to its end. */
    ghost predicate LoopEnds(p: Processing, log: seq<Event>, start: Point, end: Point) {
      && p.tries != []
      && var t := p.tries[|p.tries| - 1];
         && Again(p.tries[..|p.tries| - 1], start, t.start) && TryEnds(t, p.ending) && end == t.end
         && Accounted(FailedSince(log, p.record) + p.Rounds(), p.ending)
    }

    /** Rejections are those of the handlers that are there. */
    function RejectedAt(hasHandler: bool, n: nat): bool {
      hasHandler && world.answer(n)
    }

    /** How a record is processed from a moment on, in terms of the world's answers from there on. */
    ghost predicate Step(m: Moment, p: Processing, end: Point) {
      var d := |m.asked|;
      if world.answer(d) then
        && p.tries == [] && end == m.at
        && p.ending == if RejectedAt(hasDecodeErrorHandler, d + 1) then DecodeRejected else DecodeSkipped
      else
        && LoopEnds(p, m.log, m.at, end)
        && (p.ending.GaveUpRejected? ==> RejectedAt(hasFailedMessageHandler, d + 1))
        && (p.ending.GaveUp? ==> !RejectedAt(hasFailedMessageHandler, d + 1))
    }

    function CommitOf(record: Record): seq<Question> {
      if autoCommit then [Commit(record)] else []
    }

    /** The questions of a processed record, the handler's rounds aside. */
    function Questions(p: Processing): seq<Question> {
      var failedHandler := if hasFailedMessageHandler then [FailedHandler(p.record)] else [];
      var decodeHandler := if hasDecodeErrorHandler then [DecodeHandler(p.record)] else [];
      match p.ending
      case DecodeRejected => [Decode(p.record)] + decodeHandler
      case DecodeSkipped => [Decode(p.record)] + decodeHandler + CommitOf(p.record)
      case Handled => [Decode(p.record)] + CommitOf(p.record)
      case GaveUp => [Decode(p.record)] + failedHandler + CommitOf(p.record)
      case GaveUpRejected => [Decode(p.record)] + failedHandler
      case Interrupted => [Decode(p.record)]
    }

    function After(m: Moment, p: Processing, end: Point): Moment {
      Moment(m.log + p.Events(autoCommit), m.asked + Questions(p), end)
    }

    // ----- The methods -----

    /** One automatic commit attempt; its failure is only logged. */
    method CommitIfAuto(record: Record)
      requires maxProcessingAttempts > 0 ==> Counts(attempts, log)
      modifies this`log, world
      ensures log == old(log) + if autoCommit then [AutoCommit(record)] else []
      ensures world.asked == old(world.asked) + CommitOf(record)
      ensures maxProcessingAttempts > 0 ==> Counts(attempts, log)
    {
      if autoCommit {
        if maxProcessingAttempts > 0 {
          CountUnmoved(attempts, log, AutoCommit(record));
        }
        log := log + [AutoCommit(record)];
        var failed := world.Ask(Commit(record));
      }
    }

    /** What a failed round of a record does: the log, the questions and the choice between retrying, skipping and
        stopping. */
    ghost predicate RoundDone(record: Record, m: Moment, m': Moment, action: Action) {
      var commit := if autoCommit then [AutoCommit(record)] else [];
      var asked := if hasFailedMessageHandler then [FailedHandler(record)] else [];
      if maxProcessingAttempts <= 0 || FailedSince(m.log, record) + 1 < maxProcessingAttempts then
        action == ActionRetry && m' == m.(log := m.log + [RoundFailed(record)])
      else if RejectedAt(hasFailedMessageHandler, |m.asked|) then
        && action == ActionStop
        && m' == m.(log := m.log + [RoundFailed(record)] + [Exhausted(record)], asked := m.asked + asked)
      else
        && action == ActionSkip
        && m' == m.(log := m.log + [RoundFailed(record)] + commit + [Exhausted(record)],
                    asked := m.asked + asked + CommitOf(record))
    }

    method HandleFailedRecord(record: Record) returns (action: Action)
      requires Valid()
      modifies this`attempts, this`log, world
      ensures Valid() && RoundDone(record, old(Now()), Now(), action)
    {
      ghost var before := log;
      log := log + [RoundFailed(record)];
      if maxProcessingAttempts <= 0 {
        return ActionRetry;
      }
      CountFailed(attempts, before, record);
      attempts := attempts[record := CountOf(attempts, record) + 1];
      if attempts[record] < maxProcessingAttempts {
        return ActionRetry;
      }
      if hasFailedMessageHandler {
        var rejected := world.Ask(FailedHandler(record));
        if rejected {
          CountDisposed(attempts, log, record, Exhausted(record));
          attempts, log := attempts - {record}, log + [Exhausted(record)];
          return ActionStop;
        }
      }
      CommitIfAuto(record);
      CountDisposed(attempts, log, record, Exhausted(record));
      attempts, log := attempts - {record}, log + [Exhausted(record)];
      return ActionSkip;
    }

    /** One pass of the loop up to the choice of action; ok when the handler succeeded. */
    method Round(record: Record) returns (ok: bool, action: Action, ghost after: Point)
      requires Valid()
      modifies this`attempts, this`log, world, world.handler, world.context
      ensures Valid()
      ensures var (m, p) := (old(Now()), old(Now()).at);
              && Retried(world.context, policy, world.handler, p, after)
              && ok == !RetryFailed(world.handler, p, after)
              && if ok then Now() == m.(at := after) else RoundDone(record, m.(at := after), Now(), action)
    {
      var reply := Do(world.context, policy, world.handler, ());
      after := Now().at;
      if reply.err.None? {
        return true, ActionRetry, after;
      }
      action := HandleFailedRecord(record);
      ok := false;
    }

    /** The looks at the context before a retried record is tried again. */
    method ContextEnds() returns (done: bool)
      modifies world.context
      ensures if done then LookedDone(old(Now()).at, Now().at) else LookedLive(old(Now()).at, Now().at)
    {
      done := world.context.Done();
      if !done && policy.None? {
        done := world.context.Done();
      }
    }

    // ----- The handler loop -----

    /** The log and the count in the middle of the handler loop. */
    ghost predicate Retrying(record: Record, start: seq<Event>, now: seq<Event>, rounds: nat) {
      && now == start + Repeat(RoundFailed(record), rounds)
      && (maxProcessingAttempts > 0 ==>
            FailedSince(now, record) == FailedSince(start, record) + rounds < maxProcessingAttempts)
    }

    function LoopQuestions(p: Processing): seq<Question> {
      var failedHandler := if hasFailedMessageHandler then [FailedHandler(p.record)] else [];
      if p.ending.GaveUp? then failedHandler + CommitOf(p.record)
      else if p.ending.GaveUpRejected? then failedHandler
      else []
    }

    /** The handler loop of a record that started at m, after some rounds; its ending, once there is one. */
    ghost predicate InLoop(record: Record, m: Moment, tries: seq<Try>, ending: Option<Ending>, now: Moment) {
      match ending
      case None => Again(tries, m.at, now.at) && now.asked == m.asked && Retrying(record, m.log, now.log, |tries|)
      case Some(e) =>
        var p := Processing(record, tries, e);
        && LoopEnds(p, m.log, m.at, now.at) && now.asked == m.asked + LoopQuestions(p)
        && now.log == m.log + (if e.Handled? then Repeat(RoundFailed(record), p.Rounds()) else p.Events(autoCommit))
        && (e.GaveUpRejected? ==> RejectedAt(hasFailedMessageHandler, |m.asked|))
        && (e.GaveUp? ==> !RejectedAt(hasFailedMessageHandler, |m.asked|))
    }

    lemma LoopStarts(record: Record, m: Moment)
      requires maxProcessingAttempts > 0 ==> FailedSince(m.log, record) < maxProcessingAttempts
      ensures InLoop(record, m, [], None, m)
    {
      assert m.log + Repeat(RoundFailed(record), 0) == m.log;
    }

    lemma RoundHandled(record: Record, m: Moment, tries: seq<Try>, now: Moment, t: Try)
      requires InLoop(record, m, tries, None, now) && t.start == now.at && Made(t) && !Failed(t) && t.end == t.after
      ensures InLoop(record, m, tries + [t], Some(Handled), now.(at := t.after))
    {
      assert (tries + [t])[..|tries|] == tries;
    }

    /** A failed round joins those before it. */
    lemma RoundJoins(record: Record, start: seq<Event>, now: seq<Event>, rounds: nat)
      requires Retrying(record, start, now, rounds)
      ensures now + [RoundFailed(record)] == start + Repeat(RoundFailed(record), rounds + 1)
      ensures FailedSince(now + [RoundFailed(record)], record) == FailedSince(now, record) + 1
    {
      FailedSinceAppend(now, record, RoundFailed(record));
      RepeatMore(start, RoundFailed(record), rounds + 1);
    }

    lemma RoundGivenUp(record: Record, m: Moment, tries: seq<Try>, now: Moment, t: Try, m': Moment, action: Action)
      requires InLoop(record, m, tries, None, now) && t.start == now.at && Made(t) && Failed(t) && t.end == t.after
      requires RoundDone(record, now.(at := t.after), m', action) && !action.ActionRetry?
      ensures InLoop(record, m, tries + [t], Some(if action.ActionStop? then GaveUpRejected else GaveUp), m')
    {
      hide Retried, FailedSince, AutoCommits;
      assert (tries + [t])[..|tries|] == tries;
      RoundJoins(record, m.log, now.log, |tries|);
      var failed := Repeat(RoundFailed(record), |tries| + 1);
      var commit := if autoCommit then [AutoCommit(record)] else [];
      assert (m.log + failed) + commit + [Exhausted(record)] == m.log + (failed + commit + [Exhausted(record)]);
      assert (m.log + failed) + [Exhausted(record)] == m.log + (failed + [Exhausted(record)]);
    }

    lemma RoundToRetry(record: Record, m: Moment, tries: seq<Try>, now: Moment, t: Try, m': Moment)
      requires InLoop(record, m, tries, None, now) && t.start == now.at && Made(t) && Failed(t)
      requires RoundDone(record, now.(at := t.after), m', ActionRetry)
      ensures LookedLive(t.after, t.end) ==> InLoop(record, m, tries + [t], None, m'.(at := t.end))
      ensures LookedDone(t.after, t.end) ==> InLoop(record, m, tries + [t], Some(Interrupted), m'.(at := t.end))
    {
      hide Retried;
      assert (tries + [t])[..|tries|] == tries;
      RoundJoins(record, m.log, now.log, |tries|);
    }

    /** How far an unfinished record is from its end: rounds left, looks left, or handler calls left. */
    ghost function Horizon(k: nat, rounds: nat, at: Point): int {
      if maxProcessingAttempts > 0 then maxProcessingAttempts - rounds
      else if world.context.liveLooks.Some? then world.context.liveLooks.value - at.looks
      else k - at.calls
    }

    /** Where nothing else bounds the rounds, the k-th handler call is still to come and will succeed. */
    ghost predicate Ahead(k: nat, at: Point) {
      maxProcessingAttempts <= 0 && world.context.liveLooks.None? ==> k >= at.calls && SucceedsAt(k)
    }

    ghost predicate Nearer(k: nat, rounds: nat, t: Try) {
      Horizon(k, rounds, t.start) > 0 && Horizon(k, rounds + 1, t.end) < Horizon(k, rounds, t.start)
    }

    lemma TryAdvances(t: Try, k: nat, rounds: nat)
      requires TriedAgain(t) && Ahead(k, t.start)
      ensures Ahead(k, t.end)
      ensures maxProcessingAttempts <= 0 ==> Nearer(k, rounds, t)
    {
    }

    /** One pass of the handler loop; no ending means that the record is to be tried again. */
    method Attempt(record: Record, ghost m: Moment, ghost tries: seq<Try>)
      returns (ending: Option<Ending>, ghost t: Try)
      requires Valid() && InLoop(record, m, tries, None, Now())
      modifies this`attempts, this`log, world, world.handler, world.context
      ensures Valid() && InLoop(record, m, tries + [t], ending, Now()) && t.start == old(Now()).at
      ensures ending.None? ==> TriedAgain(t) && t.end == Now().at
    {
      hide InLoop, RoundDone, Retried, RetryFailed, LookedLive, LookedDone;
      ghost var now := Now();
      var ok, action;
      ghost var after;
      ok, action, after := Round(record);
      if ok {
        t := Try(now.at, after, after);
        RoundHandled(record, m, tries, now, t);
        return Some(Handled), t;
      }
      ghost var m' := Now();
      if action == ActionStop || action == ActionSkip {
        t := Try(now.at, after, after);
        RoundGivenUp(record, m, tries, now, t, m', action);
        return Some(if action == ActionStop then GaveUpRejected else GaveUp), t;
      }
      RoundKeepsPoint(record, now.(at := after), m', action);
      var done := ContextEnds();
      t := Try(now.at, after, Now().at);
      RoundToRetry(record, m, tries, now, t, m');
      return if done then Some(Interrupted) else None, t;
    }

    lemma RoundKeepsPoint(record: Record, m: Moment, m': Moment, action: Action)
      requires RoundDone(record, m, m', action)
      ensures m'.at == m.at
    {
    }

    /** The handler loop of processRecord. */
    method HandleRounds(record: Record, ghost k: nat) returns (ghost tries: seq<Try>, ending: Ending)
      requires Valid() && Ahead(k, Now().at)
      modifies this`attempts, this`log, world, world.handler, world.context
      ensures Valid() && InLoop(record, old(Now()), tries, Some(ending), Now())
    {
      hide InLoop, TriedAgain, Ahead, Horizon, Retrying;
      ghost var m := Now();
      tries := [];
      BelowLimit(record);
      LoopStarts(record, m);
      var end := None;
      while end.None?
        invariant Valid() && InLoop(record, m, tries, end, Now())
        invariant end.None? ==> Ahead(k, Now().at)
        decreases end.None?, Horizon(k, |tries|, Now().at)
      {
        ghost var t;
        ghost var before := tries;
        RoundsLeft(record, m, tries, Now());
        end, t := Attempt(record, m, tries);
        tries := tries + [t];
        if end.None? {
          TryAdvances(t, k, |before|);
          RoundsDrop(k, |before|, t);
        }
      }
      ending := end.value;
    }

    lemma BelowLimit(record: Record)
      requires Valid()
      ensures maxProcessingAttempts > 0 ==> FailedSince(log, record) < maxProcessingAttempts
    {
    }

    lemma RoundsLeft(record: Record, m: Moment, tries: seq<Try>, now: Moment)
      requires InLoop(record, m, tries, None, now)
      ensures maxProcessingAttempts > 0 ==> |tries| < maxProcessingAttempts
    {
    }

    lemma RoundsDrop(k: nat, rounds: nat, t: Try)
      requires maxProcessingAttempts > 0 ==> rounds < maxProcessingAttempts
      requires maxProcessingAttempts <= 0 ==> Nearer(k, rounds, t)
      ensures Nearer(k, rounds, t)
    {
    }

    // ----- processRecord and one poll -----

    lemma PickAhead() returns (k: nat)
      requires RoundsEnd()
      ensures Ahead(k, Now().at)
    {
      k := 0;
      if maxProcessingAttempts <= 0 && world.context.liveLooks.None? {
        assert SucceedsFrom(world.handler.calls);
        k :| k >= world.handler.calls && SucceedsAt(k);
      }
    }

    /** The rest of a record that did not decode, `prior` being what was asked before it. */
    method DecodeFailed(record: Record, ghost prior: seq<Question>) returns (stop: bool, ghost ending: Ending)
      requires Valid() && world.asked == prior + [Decode(record)]
      modifies this`attempts, this`log, world
      ensures Valid() && stop == Stops(ending)
      ensures ending == if RejectedAt(hasDecodeErrorHandler, |prior| + 1) then DecodeRejected else DecodeSkipped
      ensures Now() == After(old(Now()).(asked := prior), Processing(record, [], ending), old(Now()).at)
    {
      if maxProcessingAttempts > 0 {
        CountUnmoved(attempts, log, Undecodable(record));
      }
      log := log + [Undecodable(record)];
      if hasDecodeErrorHandler {
        var rejected := world.Ask(DecodeHandler(record));
        if rejected {
          return true, DecodeRejected;
        }
      }
      CommitIfAuto(record);
      return false, DecodeSkipped;
    }

    lemma {:induction false} AgainBounded(tries: seq<Try>, p: Point, q: Point)
      requires Again(tries, p, q)
      ensures p.calls <= q.calls <= p.calls + Times(|tries|, Bound(policy))
    {
      if tries != [] {
        AgainBounded(tries[..|tries| - 1], p, tries[|tries| - 1].start);
      }
    }

    lemma CallsBounded(p: Processing, log: seq<Event>, start: Point, end: Point)
      requires LoopEnds(p, log, start, end) && maxProcessingAttempts > 0
      requires FailedSince(log, p.record) < maxProcessingAttempts
      ensures end.calls <= start.calls + Times(maxProcessingAttempts - FailedSince(log, p.record), Bound(policy))
    {
      var t := p.tries[|p.tries| - 1];
      AgainBounded(p.tries[..|p.tries| - 1], start, t.start);
      FewerTimes(|p.tries|, maxProcessingAttempts - FailedSince(log, p.record), Bound(policy));
    }

    lemma LoopNeverDecodes(p: Processing, log: seq<Event>, start: Point, end: Point)
      requires LoopEnds(p, log, start, end)
      ensures !p.ending.DecodeRejected? && !p.ending.DecodeSkipped?
    {
    }

    /** The loop's part of a record makes the whole, but for what follows a handled record. */
    lemma LoopIsOver(m: Moment, p: Processing, now: Moment)
      requires !world.answer(|m.asked|)
      requires InLoop(p.record, m.(asked := m.asked + [Decode(p.record)]), p.tries, Some(p.ending), now)
      ensures Step(m, p, now.at)
      ensures var commit := if autoCommit then [AutoCommit(p.record)] else [];
              var handled := Moment(now.log + [Succeeded(p.record)] + commit, now.asked + CommitOf(p.record), now.at);
              After(m, p, now.at) == if p.ending.Handled? then handled else now
    {
      hide LoopEnds;
      LoopNeverDecodes(p, m.log, m.at, now.at);
      var failed := Repeat(RoundFailed(p.record), p.Rounds());
      var commit := if autoCommit then [AutoCommit(p.record)] else [];
      assert m.log + (failed + [Succeeded(p.record)] + commit) == (m.log + failed) + [Succeeded(p.record)] + commit;
      var decode := [Decode(p.record)];
      assert (m.asked + decode) + LoopQuestions(p) == m.asked + (decode + LoopQuestions(p));
      assert (m.asked + decode) + CommitOf(p.record) == m.asked + (decode + CommitOf(p.record));
      var failedHandler := if hasFailedMessageHandler then [FailedHandler(p.record)] else [];
      assert decode + (failedHandler + CommitOf(p.record)) == decode + failedHandler + CommitOf(p.record);
    }

    /** processRecord: true stops the partition. What it does is what the world's answers call for; the handler is
        called at most as often as failed rounds were left, times the bound of the retry policy. */
    method ProcessRecord(record: Record) returns (stop: bool, ghost p: Processing)
      requires Valid() && RoundsEnd()
      modifies this`attempts, this`log, world, world.handler, world.context
      ensures Valid() && p.record == record && stop == p.Stopped()
      ensures Step(old(Now()), p, Now().at) && Now() == After(old(Now()), p, Now().at)
      ensures maxProcessingAttempts > 0 ==>
                var left := maxProcessingAttempts - old(FailedSince(log, record));
                left > 0 && world.handler.calls <= old(world.handler.calls) + Times(left, Bound(policy))
    {
      hide LoopEnds, InLoop, Ahead;
      ghost var m := Now();
      BelowLimit(record);
      var undecodable := world.Ask(Decode(record));
      if undecodable {
        ghost var how;
        stop, how := DecodeFailed(record, m.asked);
        p := Processing(record, [], how);
        return;
      }
      ghost var k := PickAhead();
      ghost var tries;
      var ending;
      tries, ending := HandleRounds(record, k);
      p, stop := Processing(record, tries, ending), Stops(ending);
      LoopIsOver(m, p, Now());
      if maxProcessingAttempts > 0 {
        CallsBounded(p, m.log, m.at, Now().at);
      }
      if ending.Handled? {
        if maxProcessingAttempts > 0 {
          CountDisposed(attempts, log, record, Succeeded(record));
        }
        attempts, log := attempts - {record}, log + [Succeeded(record)];
        CommitIfAuto(record);
      }
    }

    // ----- One poll -----

    /** The moment after some records, where each of them left the handler and the context. */
    ghost function AfterAll(m: Moment, done: seq<Processing>, ends: seq<Point>): Moment
      requires |done| == |ends|
    {
      if done == [] then m
      else
        After(AfterAll(m, done[..|done| - 1], ends[..|ends| - 1]), done[|done| - 1], ends[|ends| - 1])
    }

    /** Each record is processed as the answers from where the one before it stopped call for. */
    ghost predicate Chained(m: Moment, done: seq<Processing>, ends: seq<Point>) {
      && |done| == |ends|
      && (done != [] ==>
            var (before, at) := (done[..|done| - 1], ends[..|ends| - 1]);
            Chained(m, before, at) && Step(AfterAll(m, before, at), done[|done| - 1], ends[|ends| - 1]))
    }

    lemma ChainMore(m: Moment, done: seq<Processing>, ends: seq<Point>, p: Processing, end: Point)
      requires Chained(m, done, ends) && Step(AfterAll(m, done, ends), p, end)
      ensures Chained(m, done + [p], ends + [end])
      ensures AfterAll(m, done + [p], ends + [end]) == After(AfterAll(m, done, ends), p, end)
    {
      hide Step, After;
      assert (done + [p])[..|done|] == done && (ends + [end])[..|ends|] == ends;
    }

    /** The commit requests of some records: one for each that did not stop its partition, and no other. */
    lemma {:induction false} CommitsAfterAll(m: Moment, done: seq<Processing>, ends: seq<Point>)
      requires |done| == |ends|
      ensures Commits(AfterAll(m, done, ends).asked) == Commits(m.asked) + if autoCommit then Unstopped(done) else []
    {
      hide Commits, EventsOf, Questions, Unstopped;
      if done == [] {
        NoneUnstopped();
        assert Commits(m.asked) + [] == Commits(m.asked);
      } else {
        var (before, at, p) := (done[..|done| - 1], ends[..|ends| - 1], done[|done| - 1]);
        CommitsAfterAll(m, before, at);
        CommitsConcat(AfterAll(m, before, at).asked, Questions(p));
        CommitsOfQuestions(p);
        UnstoppedMore(Commits(m.asked), before, p);
        assert before + [p] == done;
      }
    }

    /** One question, perhaps another that is no commit, and perhaps a commit. */
    lemma CommitsOfThree(first: Question, second: seq<Question>, third: seq<Question>)
      requires !first.Commit? && |second| <= 1 && |third| <= 1
      requires (second != [] ==> !second[0].Commit?) && (third != [] ==> third[0].Commit?)
      ensures Commits([first] + second) == []
      ensures Commits([first] + second + third) == if third == [] then [] else [third[0].record]
    {
      assert Commits([first]) == Commits(second) == [];
      assert Commits(third) == if third == [] then [] else [third[0].record];
      CommitsConcat([first], second);
      CommitsConcat([first] + second, third);
    }

    lemma CommitsOfQuestions(p: Processing)
      ensures Commits(Questions(p)) == if autoCommit && !p.Stopped() then [p.record] else []
    {
      hide Commits;
      var (decode, commit) := (Decode(p.record), CommitOf(p.record));
      assert [decode] + [] == [decode];
      CommitsOfThree(decode, [], commit);
      CommitsOfThree(decode, if hasDecodeErrorHandler then [DecodeHandler(p.record)] else [], commit);
      CommitsOfThree(decode, if hasFailedMessageHandler then [FailedHandler(p.record)] else [], commit);
    }

    /** The records of one poll, in fetch order: a stopped partition is passed over until the next poll. */
    method ProcessPoll(records: seq<Record>) returns (ghost done: seq<Processing>, ghost ends: seq<Point>)
      requires Valid() && RoundsEnd()
      modifies this`attempts, this`log, world, world.handler, world.context
      ensures Valid()
      ensures InOrder(records, done)
      ensures Chained(old(Now()), done, ends) && Now() == AfterAll(old(Now()), done, ends)
      ensures forall p: Partition :: UpToFirstStop(DoneIn(done, p), RecordsIn(records, p))
      ensures Commits(world.asked) == Commits(old(world.asked)) + if autoCommit then Unstopped(done) else []
      ensures AutoCommits(log) == AutoCommits(old(log)) + if autoCommit then Unstopped(done) else []
    {
      hide Step, After;
      var failed: set<Partition> := {};
      ghost var m := Now();
      done, ends := [], [];
      for i := 0 to |records|
        invariant Valid()
        invariant PollOk(records[..i], done, failed) && InOrder(records[..i], done)
        invariant Chained(m, done, ends) && Now() == AfterAll(m, done, ends)
      {
        var record := records[i];
        assert records[..i + 1][..i] == records[..i];
        FailedAreStopped(records[..i], done, failed, record.partition);
        if record.partition in failed {
          PassedOver(records, i, done, failed);
          continue;
        }
        ghost var one;
        var stop;
        stop, one := ProcessRecord(record);
        ChainMore(m, done, ends, one, Now().at);
        WasProcessed(records, i, done, failed, one);
        assert (done + [one])[..|done|] == done;
        done, ends := done + [one], ends + [Now().at];
        if stop {
          failed := failed + {record.partition};
        }
      }
      assert records[..|records|] == records;
      CommitsAfterAll(m, done, ends);
      AutoCommitsAfterAll(m, done, ends);
    }

    lemma NoneUnstopped()
      ensures Unstopped([]) == []
    {
    }

    lemma UnstoppedMore(commits: seq<Record>, before: seq<Processing>, p: Processing)
      ensures var commit := if autoCommit && !p.Stopped() then [p.record] else [];
              var earlier := if autoCommit then Unstopped(before) else [];
              (commits + earlier) + commit == commits + if autoCommit then Unstopped(before + [p]) else []
    {
      assert (before + [p])[..|before|] == before;
    }

    lemma {:induction false} AutoCommitsAfterAll(m: Moment, done: seq<Processing>, ends: seq<Point>)
      requires |done| == |ends|
      ensures AutoCommits(AfterAll(m, done, ends).log)
              == AutoCommits(m.log) + if autoCommit then Unstopped(done) else []
    {
      hide AutoCommits, EventsOf, Questions, Unstopped;
      if done == [] {
        NoneUnstopped();
        assert AutoCommits(m.log) + [] == AutoCommits(m.log);
      } else {
        var (before, at, p) := (done[..|done| - 1], ends[..|ends| - 1], done[|done| - 1]);
        AutoCommitsAfterAll(m, before, at);
        AutoCommitsConcat(AfterAll(m, before, at).log, p.Events(autoCommit));
        CommitsOf(p.record, p.Rounds(), p.ending, autoCommit);
        UnstoppedMore(AutoCommits(m.log), before, p);
        assert before + [p] == done;
      }
    }

    // ----- The answers leave no choice -----

    lemma TryIsDetermined(t: Try, t': Try)
      requires t.start == t'.start && Made(t) && Made(t')
      ensures t.after == t'.after
      ensures TriedAgain(t) && TriedAgain(t') ==> t == t'
    {
      RetriedOnlyOnce(world.context, policy, world.handler, t.start, t.after, t'.after);
    }

    /** Of two ways to go on trying from the same point the shorter is the beginning of the longer. */
    lemma {:induction false} AgainIsDetermined(a: seq<Try>, b: seq<Try>, p: Point, q: Point, q': Point)
      requires Again(a, p, q) && Again(b, p, q') && |a| <= |b|
      ensures a == b[..|a|] && q == if |a| < |b| then b[|a|].start else q'
      decreases |b|
    {
      hide TriedAgain;
      if |a| < |b| {
        AgainIsDetermined(a, b[..|b| - 1], p, q, b[|b| - 1].start);
        assert b[..|b| - 1][..|a|] == b[..|a|];
      } else if a != [] {
        var (t, t') := (a[|a| - 1], b[|b| - 1]);
        AgainIsDetermined(a[..|a| - 1], b[..|b| - 1], p, t.start, t'.start);
        SameLast(t, t');
        assert a == a[..|a| - 1] + [t] && b == b[..|b| - 1] + [t'] && b[..|a|] == b;
      }
    }

    lemma SameLast(t: Try, t': Try)
      requires t.start == t'.start && TriedAgain(t) && TriedAgain(t')
      ensures t == t'
    {
      TryIsDetermined(t, t');
    }

    /** Every round but the last was followed by another. */
    lemma {:induction false} AgainAt(tries: seq<Try>, p: Point, q: Point, i: nat)
      requires Again(tries, p, q) && i < |tries|
      ensures TriedAgain(tries[i])
      decreases |tries|
    {
      if i < |tries| - 1 {
        AgainAt(tries[..|tries| - 1], p, tries[|tries| - 1].start, i);
      }
    }

    /** Of two ways through the loop neither ends before the other. */
    lemma EndsNoSooner(p: Processing, p': Processing, log: seq<Event>, start: Point, end: Point, end': Point)
      requires LoopEnds(p, log, start, end) && LoopEnds(p', log, start, end') && p.record == p'.record
      ensures |p.tries| >= |p'.tries|
    {
      var (n, n') := (|p.tries| - 1, |p'.tries| - 1);
      if n < n' {
        var (t, u) := (p.tries[n], p'.tries[n]);
        AgainIsDetermined(p.tries[..n], p'.tries[..n'], start, t.start, p'.tries[n'].start);
        AgainAt(p'.tries[..n'], start, p'.tries[n'].start, n);
        TryIsDetermined(t, u);
      }
    }

    lemma LastIsDetermined(t: Try, t': Try, e: Ending, e': Ending, failed: nat)
      requires t.start == t'.start && TryEnds(t, e) && TryEnds(t', e')
      requires Accounted(if e.Handled? then failed else failed + 1, e)
      requires Accounted(if e'.Handled? then failed else failed + 1, e')
      ensures t == t' && (e == e' || (GivesUp(e) && GivesUp(e')))
    {
      TryIsDetermined(t, t');
    }

    predicate GivesUp(e: Ending) {
      e.GaveUp? || e.GaveUpRejected?
    }

    lemma LoopIsDetermined(p: Processing, p': Processing, log: seq<Event>, start: Point, end: Point, end': Point)
      requires LoopEnds(p, log, start, end) && LoopEnds(p', log, start, end') && p.record == p'.record
      ensures p.tries == p'.tries && end == end' && (p.ending == p'.ending || (GivesUp(p.ending) && GivesUp(p'.ending)))
    {
      hide Again, TryEnds, Accounted;
      EndsNoSooner(p, p', log, start, end, end');
      EndsNoSooner(p', p, log, start, end', end);
      var n := |p.tries| - 1;
      var (t, t') := (p.tries[n], p'.tries[n]);
      AgainIsDetermined(p.tries[..n], p'.tries[..n], start, t.start, t'.start);
      LastIsDetermined(t, t', p.ending, p'.ending, FailedSince(log, p.record) + n);
      assert p.tries == p.tries[..n] + [t] && p'.tries == p'.tries[..n] + [t'] && p'.tries[..n][..n] == p'.tries[..n];
    }

    /** The answers decide how a record is processed: its rounds, their handler calls and looks, and its ending. */
    lemma StepIsDetermined(m: Moment, p: Processing, p': Processing, end: Point, end': Point)
      requires Step(m, p, end) && Step(m, p', end') && p.record == p'.record
      ensures p == p' && end == end'
    {
      hide LoopEnds;
      if !world.answer(|m.asked|) {
        LoopIsDetermined(p, p', m.log, m.at, end, end');
        LoopNeverDecodes(p, m.log, m.at, end);
        LoopNeverDecodes(p', m.log, m.at, end');
      }
    }

    lemma ChainLast(m: Moment, done: seq<Processing>, ends: seq<Point>)
      requires Chained(m, done, ends) && done != []
      ensures |ends| == |done| && Chained(m, done[..|done| - 1], ends[..|ends| - 1])
      ensures Step(AfterAll(m, done[..|done| - 1], ends[..|ends| - 1]), done[|done| - 1], ends[|ends| - 1])
    {
    }

    lemma LastOfPoll(m: Moment, done: seq<Processing>, ends: seq<Point>, done': seq<Processing>, ends': seq<Point>)
      requires Chained(m, done, ends) && Chained(m, done', ends') && done != [] && done' != []
      requires done[..|done| - 1] == done'[..|done'| - 1] && ends[..|ends| - 1] == ends'[..|ends'| - 1]
      requires done[|done| - 1].record == done'[|done'| - 1].record
      ensures done == done' && ends == ends'
    {
      hide Chained, Step, AfterAll;
      ChainLast(m, done, ends);
      ChainLast(m, done', ends');
      var before := AfterAll(m, done[..|done| - 1], ends[..|ends| - 1]);
      StepIsDetermined(before, done[|done| - 1], done'[|done'| - 1], ends[|ends| - 1], ends'[|ends'| - 1]);
      SameSequences(done, done');
      SameSequences(ends, ends');
    }

    /** The answers decide what a poll does. */
    lemma {:induction false} PollIsDetermined(m: Moment, records: seq<Record>, done: seq<Processing>, ends: seq<Point>,
                                              done': seq<Processing>, ends': seq<Point>)
      requires InOrder(records, done) && InOrder(records, done') && Chained(m, done, ends) && Chained(m, done', ends')
      ensures done == done' && ends == ends'
    {
      hide AfterAll, HasStopped, Chained;
      if records == [] {
        NoneChained(m, ends);
        NoneChained(m, ends');
      } else {
        var (before, p) := (records[..|records| - 1], records[|records| - 1].partition);
        var passed := HasStopped(done, p) && InOrder(before, done);
        var passed' := HasStopped(done', p) && InOrder(before, done');
        if !passed {
          ChainLast(m, done, ends);
        }
        if !passed' {
          ChainLast(m, done', ends');
        }
        var (d, e) := if passed then (done, ends) else (done[..|done| - 1], ends[..|ends| - 1]);
        var (d', e') := if passed' then (done', ends') else (done'[..|done'| - 1], ends'[..|ends'| - 1]);
        PollIsDetermined(m, before, d, e, d', e');
        if !passed && !passed' {
          LastOfPoll(m, done, ends, done', ends');
        }
      }
    }

    lemma NoneChained(m: Moment, ends: seq<Point>)
      requires Chained(m, [], ends)
      ensures ends == []
    {
    }
  }

  lemma SameSequences<T>(a: seq<T>, b: seq<T>)
    requires a != [] && b != [] && a[..|a| - 1] == b[..|b| - 1] && a[|a| - 1] == b[|b| - 1]
    ensures a == b
  {
    assert a == a[..|a| - 1] + [a[|a| - 1]] && b == b[..|b| - 1] + [b[|b| - 1]];
  }

  /** n times b. */
  ghost function Times(n: nat, b: nat): nat {
    if n == 0 then 0 else Times(n - 1, b) + b
  }

  lemma {:induction false} TimesIsProduct(n: nat, b: nat)
    ensures Times(n, b) == n * b
  {
    if n > 0 {
      TimesIsProduct(n - 1, b);
      assert n * b == (n - 1) * b + b;
    }
  }

  lemma {:induction false} FewerTimes(n: nat, m: nat, b: nat)
    requires n <= m
    ensures Times(n, b) <= Times(m, b)
    decreases m
  {
    if n < m {
      FewerTimes(n, m - 1, b);
    }
  }

  lemma RepeatMore(log: seq<Event>, e: Event, n: nat)
    requires n > 0
    ensures log + Repeat(e, n - 1) + [e] == log + Repeat(e, n)
  {
    assert Repeat(e, n - 1) + [e] == Repeat(e, n);
  }
}
