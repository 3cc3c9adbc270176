/** Promise under concurrency: every interleaving of Resolve, Reject, Chan, Get, receivers and cancellation
    (promise/promise.go). Mutex sections are atomic except complete, whose sends and closes are steps of their
    own because receivers do not take the mutex. */
module PromiseProtocol {
  import opened Common
  import opened Promises

  datatype Lock =
    | Free
    | Completing(todo: seq<nat>, headSent: bool)

  datatype Answer<T> =
    | Settled(outcome: Outcome<T>)
    | ContextDone
    | FoundClosed

  /** Where a Get call is. */
  datatype Getter<T> =
    | Entered
    | FirstPoll(ch: nat)
    | InSelect(ch: nat)
    | SecondPoll(ch: nat)
    | BeforeRemove(ch: nat)
    | LastReceive(ch: nat)
    | Returned(answer: Answer<T>)

  datatype State<T> = State(
    value: Option<T>,
    error: Option<Error>,
    resolved: bool,
    lock: Lock,
    channels: seq<nat>,
    heap: seq<Chan<T>>,
    getters: seq<Getter<T>>,
    contextDone: set<nat>,
    successes: nat,     // Resolve and Reject calls that returned nil
    fault: bool)        // a send or close that would panic, or block with the mutex held

  datatype Step<T> =
    | DoResolve(v: T)
    | DoReject(e: Option<Error>)
    | CompleteSends
    | CompleteCloses
    | CompleteUnlocks
    | DoChan
    | CallGet
    | GetAddsChannel(g: nat)
    | GetPolls(g: nat)
    | GetReceives(g: nat)
    | GetSeesContext(g: nat)
    | GetRemoves(g: nat)
    | CancelContext(g: nat)
    | Receive(ch: nat)

  function Initial<T>(): State<T> {
    State(None, None, false, Free, [], [], [], {}, 0, false)
  }

  /** Resolve and Reject up to the loop in complete. */
  function StartComplete<T>(s: State<T>, v: Option<T>, e: Option<Error>): State<T> {
    s.(value := v, error := e, resolved := true, lock := Completing(s.channels, false), successes := s.successes + 1)
  }

  /** addChannel, for Chan (no owner) or for a Get. */
  function WithNewChannel<T>(s: State<T>, owner: Option<nat>): State<T> {
    var ch := |s.heap|;
    if s.resolved then
      s.(heap := s.heap + [MakeChan(owner).Send(ResolvedValue(s.value, s.error, s.resolved, true)).Close()])
    else
      s.(heap := s.heap + [MakeChan(owner)], channels := s.channels + [ch])
  }

  /** A receive by a Get on its own channel, when one is possible: the value, or the news that it is closed. */
  function GetterReceives<T>(s: State<T>, g: nat, ch: nat): Option<State<T>>
    requires g < |s.getters| && ch < |s.heap|
  {
    var c := s.heap[ch];
    if |c.buffer| != 0 then
      Some(s.(heap := s.heap[ch := c.Receive()], getters := s.getters[g := Returned(Settled(c.buffer[0]))]))
    else if c.closed then Some(s.(getters := s.getters[g := Returned(FoundClosed)]))
    else None
  }

  /** One step; None when it cannot be taken in this state. */
  function Next<T>(s: State<T>, step: Step<T>): Option<State<T>> {
    match step
    case DoResolve(v) =>
      if s.lock != Free then None
      else if s.resolved then Some(s)
      else Some(StartComplete(s, Some(v), None))
    case DoReject(e) =>
      if e.None? then Some(s)
      else if s.lock != Free then None
      else if s.resolved then Some(s)
      else Some(StartComplete(s, None, e))

    case CompleteSends =>
      if s.lock.Free? || s.lock.headSent || |s.lock.todo| == 0 || s.lock.todo[0] >= |s.heap| then None
      else
        var ch := s.lock.todo[0];
        var c := s.heap[ch];
        Some(s.(heap := s.heap[ch := c.Send(ResolvedValue(s.value, s.error, s.resolved, false))],
                lock := s.lock.(headSent := true), fault := s.fault || !c.CanSend()))
    case CompleteCloses =>
      if s.lock.Free? || !s.lock.headSent || |s.lock.todo| == 0 || s.lock.todo[0] >= |s.heap| then None
      else
        var ch := s.lock.todo[0];
        var c := s.heap[ch];
        Some(s.(heap := s.heap[ch := c.Close()], lock := Completing(s.lock.todo[1..], false),
                fault := s.fault || c.closed))
    case CompleteUnlocks =>
      if s.lock.Free? || s.lock.headSent || |s.lock.todo| != 0 then None
      else Some(s.(channels := [], lock := Free))

    case DoChan =>
      if s.lock != Free then None else Some(WithNewChannel(s, None))
    case CallGet =>
      Some(s.(getters := s.getters + [Entered]))
    case GetAddsChannel(g) =>
      if s.lock != Free || g >= |s.getters| || !s.getters[g].Entered? then None
      else Some(WithNewChannel(s, Some(g)).(getters := s.getters[g := FirstPoll(|s.heap|)]))
    case GetPolls(g) =>
      if g >= |s.getters| then None
      else
        (match s.getters[g]
         case FirstPoll(ch) =>
           if ch >= |s.heap| then None
           else
             var r := GetterReceives(s, g, ch);
             if r.Some? then r else Some(s.(getters := s.getters[g := InSelect(ch)]))
         case SecondPoll(ch) =>
           if ch >= |s.heap| then None
           else
             var r := GetterReceives(s, g, ch);
             if r.Some? then r else Some(s.(getters := s.getters[g := BeforeRemove(ch)]))
         case _ => None)
    case GetReceives(g) =>
      if g >= |s.getters| then None
      else
        (match s.getters[g]
         case InSelect(ch) => if ch >= |s.heap| then None else GetterReceives(s, g, ch)
         case LastReceive(ch) => if ch >= |s.heap| then None else GetterReceives(s, g, ch)
         case _ => None)
    case GetSeesContext(g) =>
      if g >= |s.getters| || !s.getters[g].InSelect? || g !in s.contextDone then None
      else Some(s.(getters := s.getters[g := SecondPoll(s.getters[g].ch)]))
    case GetRemoves(g) =>
      if s.lock != Free || g >= |s.getters| || !s.getters[g].BeforeRemove? || s.getters[g].ch >= |s.heap| then None
      else
        var ch := s.getters[g].ch;
        if s.resolved then Some(s.(getters := s.getters[g := LastReceive(ch)]))
        else
          var t := s.(getters := s.getters[g := Returned(ContextDone)]);
          if ch in s.channels then
            Some(t.(channels := Without(s.channels, ch), heap := s.heap[ch := s.heap[ch].Close()],
                    fault := s.fault || s.heap[ch].closed))
          else Some(t)
    case CancelContext(g) =>
      Some(s.(contextDone := s.contextDone + {g}))
    case Receive(ch) =>
      if ch >= |s.heap| || s.heap[ch].owner.Some? || |s.heap[ch].buffer| == 0 then None
      else Some(s.(heap := s.heap[ch := s.heap[ch].Receive()]))
  }

  // ---------- The invariant ----------

  ghost function OutcomeOf<T>(s: State<T>): Outcome<T> {
    ResolvedValue(s.value, s.error, true, false)
  }

  /** Channels still waiting for the outcome. */
  ghost function Unsent<T>(s: State<T>): seq<nat> {
    if s.lock.Free? then s.channels
    else if s.lock.headSent && s.lock.todo != [] then s.lock.todo[1..]
    else s.lock.todo
  }

  /** Between its send and its close. */
  ghost predicate IsHead<T>(s: State<T>, ch: nat) {
    s.lock.Completing? && s.lock.headSent && s.lock.todo != [] && s.lock.todo[0] == ch
  }

  /** Closed by its own Get, before the promise settled: nothing was ever sent. */
  ghost predicate Removed<T>(c: Chan<T>) {
    c.closed && c.sends == 0 && c.closes == 1 && c.buffer == c.got == [] && c.owner.Some?
  }

  ghost predicate ChannelOk<T>(s: State<T>, ch: nat)
    requires ch < |s.heap|
  {
    var c := s.heap[ch];
    if ch in Unsent(s) then c.Untouched()
    else if IsHead(s, ch) then s.resolved && !c.closed && c.closes == 0 && c.sends == 1
                               && c.got + c.buffer == [OutcomeOf(s)]
    else (s.resolved && c.SettledWith(OutcomeOf(s))) || Removed(c)
  }

  /** A Get that has not returned owns its channel, has received nothing from it, and has not removed it. */
  ghost predicate Attached<T>(s: State<T>, g: nat, ch: nat) {
    ch < |s.heap| && s.heap[ch].owner == Some(g) && s.heap[ch].got == [] && (ch in Unsent(s) || s.heap[ch].sends == 1)
  }

  ghost predicate GetterOk<T>(s: State<T>, g: nat)
    requires g < |s.getters|
  {
    match s.getters[g]
    case Entered => true
    case FirstPoll(ch) => Attached(s, g, ch)
    case InSelect(ch) => Attached(s, g, ch)
    case SecondPoll(ch) => Attached(s, g, ch) && g in s.contextDone
    case BeforeRemove(ch) => Attached(s, g, ch) && g in s.contextDone
    case LastReceive(ch) => Attached(s, g, ch) && g in s.contextDone && s.resolved && s.lock.Free?
    case Returned(a) => (a == ContextDone && g in s.contextDone) || (s.resolved && a == Settled(OutcomeOf(s)))
  }

  ghost predicate Inv<T>(s: State<T>) {
    && !s.fault
    && s.successes == (if s.resolved then 1 else 0)
    && (if s.resolved then s.value.Some? != s.error.Some? else s.value.None? && s.error.None?)
    && (s.lock.Completing? ==> s.resolved && (s.lock.headSent ==> s.lock.todo != []))
    && (s.lock.Completing? ==> Distinct(s.lock.todo) && AllBelow(s.lock.todo, |s.heap|))
    && (s.lock.Free? && s.resolved ==> s.channels == [])
    && Distinct(s.channels) && AllBelow(s.channels, |s.heap|)
    && (forall ch | 0 <= ch < |s.heap| :: ChannelOk(s, ch))
    && (forall g | 0 <= g < |s.getters| :: GetterOk(s, g))
  }

  lemma InitialInv<T>()
    ensures Inv(Initial<T>())
  {
  }

  lemma StartKeepsInv<T>(s: State<T>, v: Option<T>, e: Option<Error>)
    requires Inv(s) && s.lock.Free? && !s.resolved && v.Some? != e.Some?
    ensures Inv(StartComplete(s, v, e))
  {
    var t := StartComplete(s, v, e);
    assert Unsent(t) == Unsent(s);
    forall ch | 0 <= ch < |t.heap|
      ensures ChannelOk(t, ch)
    {
      assert ChannelOk(s, ch);
    }
    forall g | 0 <= g < |t.getters|
      ensures GetterOk(t, g)
    {
      assert GetterOk(s, g);
    }
  }

  lemma SendsKeepsInv<T>(s: State<T>)
    requires Inv(s) && Next(s, CompleteSends).Some?
    ensures Inv(Next(s, CompleteSends).value)
  {
    var t := Next(s, CompleteSends).value;
    var head := s.lock.todo[0];
    assert s.lock.todo == [head] + s.lock.todo[1..];
    assert head !in s.lock.todo[1..];
    assert ChannelOk(s, head);
    assert t.heap[head].got + t.heap[head].buffer == [OutcomeOf(t)];
    forall ch | 0 <= ch < |t.heap|
      ensures ChannelOk(t, ch)
    {
      assert ChannelOk(s, ch);
    }
    forall g | 0 <= g < |t.getters|
      ensures GetterOk(t, g)
    {
      assert GetterOk(s, g);
    }
  }

  lemma ClosesKeepsInv<T>(s: State<T>)
    requires Inv(s) && Next(s, CompleteCloses).Some?
    ensures Inv(Next(s, CompleteCloses).value)
  {
    var t := Next(s, CompleteCloses).value;
    var head := s.lock.todo[0];
    assert s.lock.todo == [head] + s.lock.todo[1..];
    assert head !in s.lock.todo[1..];
    assert ChannelOk(s, head);
    forall ch | 0 <= ch < |t.heap|
      ensures ChannelOk(t, ch)
    {
      assert ChannelOk(s, ch);
    }
    forall g | 0 <= g < |t.getters|
      ensures GetterOk(t, g)
    {
      assert GetterOk(s, g);
    }
  }

  lemma UnlocksKeepsInv<T>(s: State<T>)
    requires Inv(s) && Next(s, CompleteUnlocks).Some?
    ensures Inv(Next(s, CompleteUnlocks).value)
  {
    var t := Next(s, CompleteUnlocks).value;
    forall ch | 0 <= ch < |t.heap|
      ensures ChannelOk(t, ch)
    {
      assert ChannelOk(s, ch);
    }
    forall g | 0 <= g < |t.getters|
      ensures GetterOk(t, g)
    {
      assert GetterOk(s, g);
    }
  }

  /** A Get moving from one place to another disturbs nothing else. */
  lemma MoveKeepsInv<T>(s: State<T>, g: nat, x: Getter<T>)
    requires Inv(s) && g < |s.getters|
    requires GetterOk(s.(getters := s.getters[g := x]), g)
    ensures Inv(s.(getters := s.getters[g := x]))
  {
    var t := s.(getters := s.getters[g := x]);
    assert Unsent(t) == Unsent(s);
    forall ch | 0 <= ch < |t.heap|
      ensures ChannelOk(t, ch)
    {
      assert ChannelOk(s, ch);
    }
    forall k | 0 <= k < |t.getters|
      ensures GetterOk(t, k)
    {
      assert GetterOk(s, k);
    }
  }

  lemma NewPendingChannelKeepsInv<T>(s: State<T>, owner: Option<nat>)
    requires Inv(s) && s.lock.Free? && !s.resolved
    ensures var t := WithNewChannel(s, owner);
            Inv(t) && (owner.Some? ==> Attached(t, owner.value, |s.heap|))
  {
    var t := WithNewChannel(s, owner);
    assert Unsent(t) == Unsent(s) + [|s.heap|];
    forall ch | 0 <= ch < |t.heap|
      ensures ChannelOk(t, ch)
    {
      assert ch < |s.heap| ==> ChannelOk(s, ch);
    }
    forall g | 0 <= g < |t.getters|
      ensures GetterOk(t, g)
    {
      assert GetterOk(s, g);
    }
  }

  lemma NewSettledChannelKeepsInv<T>(s: State<T>, owner: Option<nat>)
    requires Inv(s) && s.lock.Free? && s.resolved
    ensures var t := WithNewChannel(s, owner);
            Inv(t) && (owner.Some? ==> Attached(t, owner.value, |s.heap|))
  {
    var t := WithNewChannel(s, owner);
    var c := t.heap[|s.heap|];
    assert c.got + c.buffer == [OutcomeOf(t)];
    forall ch | 0 <= ch < |t.heap|
      ensures ChannelOk(t, ch)
    {
      assert ch < |s.heap| ==> ChannelOk(s, ch);
    }
    forall g | 0 <= g < |t.getters|
      ensures GetterOk(t, g)
    {
      assert GetterOk(s, g);
    }
  }

  lemma NewChannelKeepsInv<T>(s: State<T>, owner: Option<nat>)
    requires Inv(s) && s.lock.Free?
    ensures var t := WithNewChannel(s, owner);
            Inv(t) && (owner.Some? ==> Attached(t, owner.value, |s.heap|))
  {
    if s.resolved {
      NewSettledChannelKeepsInv(s, owner);
    } else {
      NewPendingChannelKeepsInv(s, owner);
    }
  }

  lemma ReceiveKeepsInv<T>(s: State<T>, ch: nat)
    requires Inv(s) && Next(s, Receive(ch)).Some?
    ensures Inv(Next(s, Receive(ch)).value)
  {
    var t := Next(s, Receive(ch)).value;
    assert ChannelOk(s, ch);
    assert t.heap[ch].got + t.heap[ch].buffer == s.heap[ch].got + s.heap[ch].buffer;
    forall c | 0 <= c < |t.heap|
      ensures ChannelOk(t, c)
    {
      assert ChannelOk(s, c);
    }
    forall g | 0 <= g < |t.getters|
      ensures GetterOk(t, g)
    {
      assert GetterOk(s, g);
    }
  }

  /** A Get that receives gets the outcome: it never finds its channel closed and empty. */
  lemma GetterReceivesKeepsInv<T>(s: State<T>, g: nat, ch: nat)
    requires Inv(s) && g < |s.getters| && Attached(s, g, ch) && !s.getters[g].Returned?
    requires GetterReceives(s, g, ch).Some?
    ensures Inv(GetterReceives(s, g, ch).value)
  {
    var t := GetterReceives(s, g, ch).value;
    assert ChannelOk(s, ch);
    assert s.heap[ch].got + s.heap[ch].buffer == [OutcomeOf(s)];
    assert s.heap[ch].buffer == [OutcomeOf(s)];
    assert t.heap[ch].got + t.heap[ch].buffer == s.heap[ch].got + s.heap[ch].buffer;
    assert Unsent(t) == Unsent(s);
    forall c | 0 <= c < |t.heap|
      ensures ChannelOk(t, c)
    {
      assert ChannelOk(s, c);
    }
    forall k | 0 <= k < |t.getters|
      ensures GetterOk(t, k)
    {
      assert GetterOk(s, k);
    }
  }

  lemma RemovesKeepsInv<T>(s: State<T>, g: nat)
    requires Inv(s) && Next(s, GetRemoves(g)).Some? && !s.resolved
    ensures Inv(Next(s, GetRemoves(g)).value)
  {
    var t := Next(s, GetRemoves(g)).value;
    var ch := s.getters[g].ch;
    assert GetterOk(s, g);
    assert ChannelOk(s, ch);
    var index :| 0 <= index < |s.channels| && s.channels[index] == ch;
    WithoutAt(s.channels, index);
    forall c | 0 <= c < |t.heap|
      ensures ChannelOk(t, c)
    {
      WithoutMembers(s.channels, ch, c);
      assert ChannelOk(s, c);
    }
    forall k | 0 <= k < |t.getters|
      ensures GetterOk(t, k)
    {
      assert GetterOk(s, k);
      if s.getters[k].FirstPoll? || s.getters[k].InSelect? || s.getters[k].SecondPoll? || s.getters[k].BeforeRemove? {
        WithoutMembers(s.channels, ch, s.getters[k].ch);
      }
    }
  }

  lemma GetStepKeepsInv<T>(s: State<T>, step: Step<T>)
    requires Inv(s) && Next(s, step).Some?
    requires step.GetAddsChannel? || step.GetPolls? || step.GetReceives? || step.GetSeesContext? || step.GetRemoves?
    ensures Inv(Next(s, step).value)
  {
    var g := step.g;
    assert GetterOk(s, g);
    match step
    case GetAddsChannel(_) =>
      NewChannelKeepsInv(s, Some(g));
      MoveKeepsInv(WithNewChannel(s, Some(g)), g, FirstPoll(|s.heap|));
    case GetPolls(_) =>
      var ch := s.getters[g].ch;
      if GetterReceives(s, g, ch).Some? {
        GetterReceivesKeepsInv(s, g, ch);
      } else {
        MoveKeepsInv(s, g, if s.getters[g].FirstPoll? then InSelect(ch) else BeforeRemove(ch));
      }
    case GetReceives(_) =>
      GetterReceivesKeepsInv(s, g, s.getters[g].ch);
    case GetSeesContext(_) =>
      MoveKeepsInv(s, g, SecondPoll(s.getters[g].ch));
    case GetRemoves(_) =>
      if s.resolved {
        MoveKeepsInv(s, g, LastReceive(s.getters[g].ch));
      } else {
        RemovesKeepsInv(s, g);
      }
  }

  lemma CallGetKeepsInv<T>(s: State<T>)
    requires Inv(s)
    ensures Inv(s.(getters := s.getters + [Entered]))
  {
    var t := s.(getters := s.getters + [Entered]);
    forall ch | 0 <= ch < |t.heap|
      ensures ChannelOk(t, ch)
    {
      assert ChannelOk(s, ch);
    }
    forall k | 0 <= k < |t.getters|
      ensures GetterOk(t, k)
    {
      assert k < |s.getters| ==> GetterOk(s, k);
    }
  }

  lemma CancelKeepsInv<T>(s: State<T>, done: set<nat>)
    requires Inv(s) && s.contextDone <= done
    ensures Inv(s.(contextDone := done))
  {
    var t := s.(contextDone := done);
    forall ch | 0 <= ch < |t.heap|
      ensures ChannelOk(t, ch)
    {
      assert ChannelOk(s, ch);
    }
    forall k | 0 <= k < |t.getters|
      ensures GetterOk(t, k)
    {
      assert GetterOk(s, k);
    }
  }

  lemma StepKeepsInv<T>(s: State<T>, step: Step<T>)
    requires Inv(s) && Next(s, step).Some?
    ensures Inv(Next(s, step).value)
  {
    match step
    case DoResolve(v) => if !s.resolved { StartKeepsInv(s, Some(v), None); }
    case DoReject(e) => if e.Some? && !s.resolved { StartKeepsInv(s, None, e); }
    case CompleteSends => SendsKeepsInv(s);
    case CompleteCloses => ClosesKeepsInv(s);
    case CompleteUnlocks => UnlocksKeepsInv(s);
    case DoChan => NewChannelKeepsInv(s, None);
    case CallGet => CallGetKeepsInv(s);
    case CancelContext(g) => CancelKeepsInv(s, s.contextDone + {g});
    case Receive(ch) => ReceiveKeepsInv(s, ch);
    case _ => GetStepKeepsInv(s, step);
  }

  // ---------- Every run ----------

  ghost predicate Runs<T>(s: State<T>, steps: seq<Step<T>>, t: State<T>)
    decreases |steps|
  {
    if steps == [] then s == t
    else Next(s, steps[0]).Some? && Runs(Next(s, steps[0]).value, steps[1..], t)
  }

  ghost predicate Reachable<T(!new)>(t: State<T>) {
    exists steps :: Runs(Initial(), steps, t)
  }

  lemma {:induction false} RunKeepsInv<T>(s: State<T>, steps: seq<Step<T>>, t: State<T>)
    requires Inv(s) && Runs(s, steps, t)
    ensures Inv(t)
    decreases |steps|
  {
    if steps != [] {
      StepKeepsInv(s, steps[0]);
      RunKeepsInv(Next(s, steps[0]).value, steps[1..], t);
    }
  }

  lemma ReachableInv<T(!new)>(t: State<T>)
    requires Reachable(t)
    ensures Inv(t)
  {
    InitialInv<T>();
    var steps :| Runs(Initial(), steps, t);
    RunKeepsInv(Initial(), steps, t);
  }

  /** No run panics or blocks on a channel operation under the mutex; at most one Resolve or Reject succeeds. */
  lemma NoFault<T(!new)>(t: State<T>)
    requires Reachable(t)
    ensures !t.fault
    ensures t.successes <= 1 && (t.successes == 1 <==> t.resolved)
    ensures forall ch | 0 <= ch < |t.heap| :: t.heap[ch].closes <= 1 && t.heap[ch].sends <= 1
  {
    ReachableInv(t);
    forall ch | 0 <= ch < |t.heap|
      ensures t.heap[ch].closes <= 1 && t.heap[ch].sends <= 1
    {
      assert ChannelOk(t, ch);
    }
  }

  /** What is sent to is open and empty, what is closed was open, and nothing is opened again. */
  predicate Safely<T>(c: Chan<T>, d: Chan<T>) {
    && (d.sends != c.sends ==> d.sends == c.sends + 1 && !c.closed && c.buffer == [])
    && (d.closes != c.closes ==> d.closes == c.closes + 1 && !c.closed && d.closed)
    && (c.closed ==> d.closed)
  }

  lemma RemovesSafely<T>(s: State<T>, g: nat, ch: nat)
    requires Inv(s) && Next(s, GetRemoves(g)).Some? && ch < |s.heap|
    ensures Safely(s.heap[ch], Next(s, GetRemoves(g)).value.heap[ch])
  {
    assert GetterOk(s, g);
    assert ChannelOk(s, s.getters[g].ch);
  }

  lemma CompletesSafely<T>(s: State<T>, step: Step<T>, ch: nat)
    requires Inv(s) && Next(s, step).Some? && (step.CompleteSends? || step.CompleteCloses?) && ch < |s.heap|
    ensures Safely(s.heap[ch], Next(s, step).value.heap[ch])
  {
    hide GetterOk;
    assert ChannelOk(s, ch);
  }

  lemma NeitherSendsNorCloses<T>(s: State<T>, step: Step<T>, ch: nat)
    requires Next(s, step).Some? && ch < |s.heap|
    requires !step.CompleteSends? && !step.CompleteCloses? && !step.GetRemoves?
    ensures ch < |Next(s, step).value.heap| && Safely(s.heap[ch], Next(s, step).value.heap[ch])
  {
  }

  /** The same, channel by channel. */
  lemma SendsAndClosesAreSafe<T(!new)>(s: State<T>, step: Step<T>, ch: nat)
    requires Reachable(s) && Next(s, step).Some? && ch < |s.heap|
    ensures ch < |Next(s, step).value.heap| && Safely(s.heap[ch], Next(s, step).value.heap[ch])
  {
    hide Inv, ChannelOk, GetterOk, Safely, Runs;
    ReachableInv(s);
    match step
    case CompleteSends => CompletesSafely(s, step, ch);
    case CompleteCloses => CompletesSafely(s, step, ch);
    case GetRemoves(g) => RemovesSafely(s, g, ch);
    case _ => NeitherSendsNorCloses(s, step, ch);
  }

  // ---------- The call that settles ----------

  /** What the first Resolve, or the first Reject of an error, was given. */
  function Given<T>(steps: seq<Step<T>>): Option<Outcome<T>> {
    if steps == [] then None
    else
      match steps[0]
      case DoResolve(v) => Some(Value(v))
      case DoReject(Some(e)) => Some(Failure(e))
      case _ => Given(steps[1..])
  }

  /** Settled with this very value or error. */
  ghost predicate SettledBy<T>(s: State<T>, o: Outcome<T>) {
    && s.resolved && OutcomeOf(s) == o
    && match o
       case Value(v) => s.value == Some(v) && s.error.None?
       case Failure(e) => s.value.None? && s.error == Some(e)
  }

  lemma SettlesAtOnce<T>(s: State<T>, step: Step<T>, o: Outcome<T>)
    requires Inv(s) && !s.resolved && Next(s, step).Some? && Given([step]) == Some(o)
    ensures SettledBy(Next(s, step).value, o)
  {
    assert [step][1..] == [];
  }

  lemma OthersSettleNothing<T>(s: State<T>, step: Step<T>)
    requires Next(s, step).Some? && (s.resolved || Given([step]).None?)
    ensures var t := Next(s, step).value;
            t.resolved == s.resolved && t.value == s.value && t.error == s.error
  {
  }

  lemma {:induction false} FirstCallSettles<T>(s: State<T>, steps: seq<Step<T>>, t: State<T>)
    requires Inv(s) && Runs(s, steps, t)
    ensures s.resolved ==> t.resolved && t.value == s.value && t.error == s.error
    ensures !s.resolved ==> if Given(steps).Some? then SettledBy(t, Given(steps).value) else !t.resolved
    decreases |steps|
  {
    hide Next, Inv;
    if steps != [] {
      var (step, s1) := (steps[0], Next(s, steps[0]).value);
      StepKeepsInv(s, step);
      FirstCallSettles(s1, steps[1..], t);
      if !s.resolved && Given([step]).Some? {
        SettlesAtOnce(s, step, Given([step]).value);
      } else {
        OthersSettleNothing(s, step);
      }
    }
  }

  lemma CancelledNow<T>(s: State<T>, step: Step<T>, g: nat)
    requires Next(s, step).Some?
    ensures g in Next(s, step).value.contextDone <==> g in s.contextDone || step == CancelContext(g)
  {
  }

  lemma {:induction false} CancelledByStep<T>(s: State<T>, steps: seq<Step<T>>, t: State<T>, g: nat)
    requires Runs(s, steps, t)
    ensures g in t.contextDone <==> g in s.contextDone || CancelContext(g) in steps
    decreases |steps|
  {
    hide Next;
    if steps != [] {
      CancelledNow(s, steps[0], g);
      CancelledByStep(Next(s, steps[0]).value, steps[1..], t, g);
      assert steps == [steps[0]] + steps[1..];
    }
  }

  /** A run settles the promise exactly when a Resolve, or a Reject of an error, is in it, and with what the first of
      these calls was given. */
  lemma SettledByFirstCall<T>(steps: seq<Step<T>>, t: State<T>)
    requires Runs(Initial(), steps, t)
    ensures Inv(t)
    ensures if Given(steps).Some? then SettledBy(t, Given(steps).value) else !t.resolved
  {
    hide Runs, Next, Inv;
    InitialInv<T>();
    RunKeepsInv(Initial(), steps, t);
    FirstCallSettles(Initial(), steps, t);
  }

  /** A channel from Chan yields at most one value, always what the first settling call was given; it is closed only
      after that value, and once the promise is settled and the mutex free, both have happened. */
  lemma SubscribersGetTheOutcome<T>(steps: seq<Step<T>>, t: State<T>, ch: nat)
    requires Runs(Initial(), steps, t) && ch < |t.heap| && t.heap[ch].owner.None?
    ensures var (c, given) := (t.heap[ch], Given(steps));
            && (c.got + c.buffer == [] || (given.Some? && c.got + c.buffer == [given.value]))
            && (c.closed ==> given.Some? && c.SettledWith(given.value))
            && (given.Some? && t.lock.Free? ==> c.SettledWith(given.value))
  {
    hide Runs, Next, Given;
    SettledByFirstCall(steps, t);
    assert ChannelOk(t, ch);
  }

  /** Get ends with the value or the error that the first settling call was given, or with its own context's error when
      that context was cancelled, and with nothing else. */
  lemma GetAnswersRightly<T>(steps: seq<Step<T>>, t: State<T>, g: nat)
    requires Runs(Initial(), steps, t) && g < |t.getters| && t.getters[g].Returned?
    ensures var (a, given) := (t.getters[g].answer, Given(steps));
            || (a == ContextDone && CancelContext(g) in steps)
            || (given.Some? && a == Settled(given.value))
  {
    hide Runs, Next, Given;
    SettledByFirstCall(steps, t);
    CancelledByStep(Initial(), steps, t, g);
    assert GetterOk(t, g);
  }

  /** With the mutex free every Resolve and Reject returns; once the promise is settled they change nothing, and neither
      does rejecting with nil at any time. */
  lemma LaterCallsChangeNothing<T>(s: State<T>, v: T, e: Option<Error>)
    ensures Next(s, DoReject(None)) == Some(s)
    ensures s.lock.Free? ==> Next(s, DoResolve(v)).Some? && Next(s, DoReject(e)).Some?
    ensures s.lock.Free? && s.resolved ==> Next(s, DoResolve(v)).value == Next(s, DoReject(e)).value == s
    ensures s.lock.Free? && !s.resolved ==> Next(s, DoResolve(v)).value != s
  {
  }

  /** A fault is what Go makes of it: a send on a closed channel panics, one on a full channel of capacity one blocks,
      and closing a closed channel panics. */
  lemma FaultsAreGos<T>(s: State<T>, step: Step<T>)
    requires !s.fault && Next(s, step).Some?
    ensures Next(s, step).value.fault <==>
              || (step.CompleteSends? && (s.heap[s.lock.todo[0]].closed || |s.heap[s.lock.todo[0]].buffer| >= 1))
              || (step.CompleteCloses? && s.heap[s.lock.todo[0]].closed)
              || (step.GetRemoves? && !s.resolved && s.getters[step.g].ch in s.channels
                  && s.heap[s.getters[step.g].ch].closed)
  {
  }

  /** A Get that answers with the outcome has taken it off its own channel, and left that empty. */
  lemma AnswerIsTaken<T>(s: State<T>, step: Step<T>, g: nat)
    requires Inv(s) && Next(s, step).Some? && g < |s.getters| && !s.getters[g].Returned?
    requires Next(s, step).value.getters[g].Returned? && Next(s, step).value.getters[g].answer.Settled?
    ensures !s.getters[g].Entered? && s.getters[g].ch < |s.heap|
    ensures var c := Next(s, step).value.heap[s.getters[g].ch];
            c.buffer == [] && c.got == [Next(s, step).value.getters[g].answer.outcome]
  {
    assert GetterOk(s, g);
    assert ChannelOk(s, s.getters[g].ch);
  }

  // ---------- Nothing gets stuck ----------

  /** What a Get does next once the promise is settled or its context is done. */
  function OwnStep<T>(s: State<T>, g: nat): Step<T>
    requires g < |s.getters|
  {
    match s.getters[g]
    case Entered => GetAddsChannel(g)
    case FirstPoll(_) => GetPolls(g)
    case InSelect(_) => if s.resolved then GetReceives(g) else GetSeesContext(g)
    case SecondPoll(_) => GetPolls(g)
    case BeforeRemove(_) => GetRemoves(g)
    case LastReceive(_) => GetReceives(g)
    case Returned(_) => GetReceives(g)
  }

  function StepsLeft<T>(x: Getter<T>): nat {
    match x
    case Entered => 6
    case FirstPoll(_) => 5
    case InSelect(_) => 4
    case SecondPoll(_) => 3
    case BeforeRemove(_) => 2
    case LastReceive(_) => 1
    case Returned(_) => 0
  }

  /** The mutex is free and the Get has something to answer. */
  ghost predicate CanAnswer<T>(s: State<T>, g: nat) {
    Inv(s) && s.lock.Free? && g < |s.getters| && (s.resolved || g in s.contextDone)
  }

  ghost function AnswerDue<T>(s: State<T>): Answer<T> {
    if s.resolved then Settled(OutcomeOf(s)) else ContextDone
  }

  lemma OwnReceive<T>(s: State<T>, g: nat, ch: nat)
    requires CanAnswer(s, g) && Attached(s, g, ch)
    ensures GetterReceives(s, g, ch).Some? <==> s.resolved
    ensures s.resolved ==> GetterReceives(s, g, ch).value.getters[g] == Returned(Settled(OutcomeOf(s)))
  {
    assert ChannelOk(s, ch);
    assert s.heap[ch].got + s.heap[ch].buffer == s.heap[ch].buffer;
  }

  lemma OwnStepMoves<T>(s: State<T>, g: nat)
    requires CanAnswer(s, g) && !s.getters[g].Returned?
    ensures Next(s, OwnStep(s, g)).Some?
    ensures var t := Next(s, OwnStep(s, g)).value;
            && |t.getters| == |s.getters| && StepsLeft(t.getters[g]) < StepsLeft(s.getters[g])
            && t.lock.Free? && t.resolved == s.resolved && t.contextDone == s.contextDone
            && OutcomeOf(t) == OutcomeOf(s)
            && (t.getters[g].Returned? ==> t.getters[g].answer == AnswerDue(s))
  {
    hide Attached;
    assert GetterOk(s, g);
    if !s.getters[g].Entered? {
      OwnChannel(s, g, s.getters[g].ch);
      OwnReceive(s, g, s.getters[g].ch);
    }
  }

  lemma OwnChannel<T>(s: State<T>, g: nat, ch: nat)
    requires Attached(s, g, ch)
    ensures ch < |s.heap|
  {
  }

  /** Once the promise is settled or a Get's context is done, and the mutex is free, the Get's own steps, at most six
      and none of them blocked, take it to its answer. */
  lemma {:induction false} EveryGetAnswers<T>(s: State<T>, g: nat) returns (own: seq<Step<T>>, t: State<T>)
    requires CanAnswer(s, g)
    ensures |own| <= StepsLeft(s.getters[g]) && Runs(s, own, t) && g < |t.getters|
    ensures t.getters[g] == if s.getters[g].Returned? then s.getters[g] else Returned(AnswerDue(s))
    decreases StepsLeft(s.getters[g])
  {
    hide Next, Inv;
    if s.getters[g].Returned? {
      return [], s;
    }
    OwnStepMoves(s, g);
    StepKeepsInv(s, OwnStep(s, g));
    own, t := EveryGetAnswers(Next(s, OwnStep(s, g)).value, g);
    RunsAfter(s, OwnStep(s, g), own, t);
    own := [OwnStep(s, g)] + own;
  }

  /** After the first settling call, and with the mutex free, a Get can be called and answers what that call was
      given. */
  lemma NewGetAnswers<T>(steps: seq<Step<T>>, s: State<T>) returns (own: seq<Step<T>>, t: State<T>)
    requires Runs(Initial(), steps, s) && Given(steps).Some? && s.lock.Free?
    ensures Runs(s, [CallGet] + own, t) && |own| <= 6
    ensures |t.getters| > |s.getters| && t.getters[|s.getters|] == Returned(Settled(Given(steps).value))
  {
    hide Runs, Inv, Given;
    SettledByFirstCall(steps, s);
    StepKeepsInv(s, CallGet);
    var s1 := Next(s, CallGet).value;
    own, t := EveryGetAnswers(s1, |s.getters|);
    RunsAfter(s, CallGet, own, t);
  }

  /** Chan can be called whenever the mutex is free and gives a channel of its own, which waits for the outcome or,
      after the first settling call, can be received from at once. */
  lemma NewChanReceives<T>(steps: seq<Step<T>>, s: State<T>)
    requires Runs(Initial(), steps, s) && s.lock.Free?
    ensures Next(s, DoChan).Some?
    ensures var (t, ch) := (Next(s, DoChan).value, |s.heap|);
            && |t.heap| == ch + 1 && t.heap[..ch] == s.heap && t.heap[ch].owner.None?
            && if Given(steps).None? then t.channels == s.channels + [ch]
               else Next(t, Receive(ch)).Some? && Next(t, Receive(ch)).value.heap[ch].got == [Given(steps).value]
  {
    hide Runs, Given;
    SettledByFirstCall(steps, s);
    StepKeepsInv(s, DoChan);
    assert ChannelOk(Next(s, DoChan).value, |s.heap|);
  }

  lemma RunsAfter<T>(s: State<T>, step: Step<T>, own: seq<Step<T>>, t: State<T>)
    requires Next(s, step).Some? && Runs(Next(s, step).value, own, t)
    ensures Runs(s, [step] + own, t)
  {
    hide Next;
    assert ([step] + own)[1..] == own;
  }

  /** Only the removal step can give the context's error. */
  lemma OnlyRemovalGivesUp<T>(s: State<T>, step: Step<T>, g: nat)
    requires g < |s.getters| && Next(s, step).Some?
    requires s.getters[g] != Returned(ContextDone)
    requires Next(s, step).value.getters[g] == Returned(ContextDone)
    ensures step == GetRemoves(g) && s.getters[g].BeforeRemove? && !s.resolved
  {
    match step
    case GetRemoves(k) =>
    case _ =>
  }

  /** The step that makes a Get give up finds the promise unsettled and takes the channel off the list, closing it. */
  lemma GivesUpOnlyUnsettled<T(!new)>(s: State<T>, step: Step<T>, g: nat)
    requires Reachable(s) && g < |s.getters| && Next(s, step).Some?
    requires s.getters[g] != Returned(ContextDone)
    requires Next(s, step).value.getters[g] == Returned(ContextDone)
    ensures step == GetRemoves(g) && !s.resolved
    ensures s.getters[g].ch in s.channels && s.getters[g].ch !in Next(s, step).value.channels
    ensures Next(s, step).value.heap[s.getters[g].ch].closed
  {
    OnlyRemovalGivesUp(s, step, g);
    ReachableInv(s);
    assert GetterOk(s, g);
    var ch := s.getters[g].ch;
    assert ChannelOk(s, ch);
    WithoutMembers(s.channels, ch, ch);
  }

  /** After removeChannel has said no, the value is already there: the plain receive does not block. */
  lemma LastReceiveNeverBlocks<T(!new)>(s: State<T>, g: nat)
    requires Reachable(s) && g < |s.getters| && s.getters[g].LastReceive?
    ensures Next(s, GetReceives(g)).Some?
    ensures Next(s, GetReceives(g)).value.getters[g] == Returned(Settled(OutcomeOf(s)))
  {
    ReachableInv(s);
    assert GetterOk(s, g);
    var ch := s.getters[g].ch;
    assert ChannelOk(s, ch);
    assert s.heap[ch].got + s.heap[ch].buffer == s.heap[ch].buffer;
  }

  /** The outcome never changes once it is there, and a returned Get keeps its answer. */
  lemma OutcomeIsFinal<T(!new)>(s: State<T>, step: Step<T>)
    requires Reachable(s) && Next(s, step).Some?
    ensures var t := Next(s, step).value;
            && (s.resolved ==> t.resolved && t.value == s.value && t.error == s.error)
            && forall g | 0 <= g < |s.getters| && s.getters[g].Returned? :: t.getters[g] == s.getters[g]
  {
  }

  // ---------- The loop in complete, taken without interruption ----------

  function CompleteSteps<T>(n: nat): seq<Step<T>> {
    if n == 0 then [CompleteUnlocks] else [CompleteSends, CompleteCloses] + CompleteSteps(n - 1)
  }

  /** Run to its end the completing section does what the method Complete is proved to do. */
  lemma {:induction false} CompleteRefinesSettle<T>(s: State<T>)
    requires s.lock.Completing? && !s.lock.headSent && AllBelow(s.lock.todo, |s.heap|) && Distinct(s.lock.todo)
    requires forall i | 0 <= i < |s.lock.todo| :: s.heap[s.lock.todo[i]].Untouched()
    ensures Runs(s, CompleteSteps<T>(|s.lock.todo|),
                 s.(heap := Settle(s.heap, s.lock.todo, ResolvedValue(s.value, s.error, s.resolved, false)),
                    channels := [], lock := Free))
    decreases |s.lock.todo|
  {
    var todo := s.lock.todo;
    if todo == [] {
      assert CompleteSteps<T>(0)[1..] == [];
    } else {
      var steps := CompleteSteps<T>(|todo|);
      var s1 := Next(s, CompleteSends).value;
      var s2 := Next(s1, CompleteCloses).value;
      assert steps[1..] == [CompleteCloses] + CompleteSteps<T>(|todo| - 1);
      assert steps[1..][1..] == CompleteSteps<T>(|todo| - 1);
      var o := ResolvedValue(s.value, s.error, s.resolved, false);
      assert s2.heap == s.heap[todo[0] := s.heap[todo[0]].Send(o).Close()];
      CompleteRefinesSettle(s2);
    }
  }
}
