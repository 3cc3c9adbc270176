/** The routes part of the OpenAPI generator (gen/api.go): the models each operation names become schema components,
    and the operation refers to them. */
module RouteSchemas {
  import opened Common
  import opened ApiModels
  import opened SchemaClosure

  /** One operation of a route, with what the generator checks or refers to: how many securities its list holds, if it
      has one, and so on. */
  datatype Operation = Operation(
    hidden: bool,
    verb: string,
    securities: Option<nat>,
    parameterTypes: seq<string>,
    requestFiles: nat,
    requestModel: string,
    responseModels: seq<string>)

  /** The schema names an operation's request body and responses refer to. */
  datatype References = References(request: Option<string>, responses: seq<string>)

  predicate KnownParameterType(t: string) {
    t == "string" || t == "bool" || t == "integer" || t == "uint64" || t == "number" || t == "float"
  }

  predicate KnownVerb(verb: string) {
    verb == "get" || verb == "post" || verb == "put" || verb == "patch" || verb == "delete"
  }

  /** An error response is filed under its name, which has to be a number. */
  predicate BadStatus(api: Api, name: string) {
    name in api.errors && !api.isNumber(name)
  }

  /** Something is wrong with the operation itself. */
  ghost predicate OperationFault(api: Api, op: Operation, e: Error) {
    || (e.OnlyOneSecurityAllowed? && op.securities.Some? && op.securities.value > 1)
    || (e.EmptySecurity? && op.securities == Some(0))
    || (e.UnknownParameterType? && exists t | t in op.parameterTypes :: !KnownParameterType(t))
    || (e.BadStatusCode? && e.name in op.responseModels && BadStatus(api, e.name))
    || (e.UnknownRouteOperation? && !KnownVerb(op.verb))
  }

  ghost predicate OperationSound(api: Api, op: Operation) {
    && (op.securities.Some? ==> op.securities.value == 1) && KnownVerb(op.verb)
    && (forall t | t in op.parameterTypes :: KnownParameterType(t))
    && (forall name | name in op.responseModels :: !BadStatus(api, name))
  }

  lemma SoundIsFaultless(api: Api, op: Operation)
    ensures OperationSound(api, op) <==> forall e :: !OperationFault(api, op, e)
  {
    if forall e :: !OperationFault(api, op, e) {
      assert !OperationFault(api, op, OnlyOneSecurityAllowed);
      assert !OperationFault(api, op, EmptySecurity);
      assert !OperationFault(api, op, UnknownParameterType);
      assert !OperationFault(api, op, UnknownRouteOperation);
      forall name | name in op.responseModels
        ensures !BadStatus(api, name)
      {
        assert !OperationFault(api, op, BadStatusCode(name));
      }
    }
  }

  /** The checks of an operation, in OpenAPI's own words. */
  lemma SoundSpelledOut(api: Api, op: Operation)
    ensures OperationSound(api, op) <==>
              && (op.securities.None? || op.securities == Some(1))
              && op.verb in {"get", "post", "put", "patch", "delete"}
              && (forall t | t in op.parameterTypes :: t in {"string", "bool", "integer", "uint64", "number", "float"})
              && (forall name | name in op.responseModels && name in api.errors :: api.isNumber(name))
  {
    forall t
      ensures KnownParameterType(t) <==> t in {"string", "bool", "integer", "uint64", "number", "float"}
    {
    }
  }

  predicate HasRequestModel(op: Operation) {
    op.requestFiles == 0 && op.requestModel != ""
  }

  /** The models an operation names. */
  ghost function NamedBy(op: Operation): set<string> {
    (if HasRequestModel(op) then {op.requestModel} else {}) + set name | name in op.responseModels
  }

  ghost function Visible(ops: seq<Operation>): set<Operation> {
    set op | op in ops && !op.hidden
  }

  ghost function Requested(ops: seq<Operation>): set<string> {
    set op, name | op in Visible(ops) && name in NamedBy(op) :: name
  }

  ghost predicate Wanted(api: Api, names: set<string>, m: string)
    requires WellFormed(api)
  {
    exists name :: name in names && Reaches(api, Resolve(api, name), m)
  }

  ghost predicate OwnersWanted(api: Api, names: set<string>, s: Snapshot)
    requires WellFormed(api) && Inv(api, s)
  {
    forall n | n in s.visited :: Wanted(api, names, s.owner[n])
  }

  ghost predicate NamesClaimed(api: Api, names: set<string>, s: Snapshot) {
    forall name {:trigger api.schemaName(Resolve(api, name))} | name in names ::
      api.schemaName(Resolve(api, name)) in s.visited
  }

  ghost function ReferencesOf(api: Api, op: Operation): References {
    References(
      if HasRequestModel(op) then Some(api.schemaName(Resolve(api, op.requestModel))) else None,
      seq(|op.responseModels|,
          i requires 0 <= i < |op.responseModels| => api.schemaName(Resolve(api, op.responseModels[i]))))
  }

  /** A request refers to its model unless it uploads files; every response refers to its model, in order. */
  lemma ReferencesSpelledOut(api: Api, op: Operation)
    ensures var r := ReferencesOf(api, op);
            && (r.request.Some? <==> op.requestFiles == 0 && op.requestModel != "")
            && (r.request.Some? ==> r.request.value == api.schemaName(Resolve(api, op.requestModel)))
            && |r.responses| == |op.responseModels|
            && forall i | 0 <= i < |r.responses| :: r.responses[i] == api.schemaName(Resolve(api, op.responseModels[i]))
  {
  }

  ghost function AllReferences(api: Api, ops: seq<Operation>): seq<References> {
    if ops == [] then []
    else
      var last := ops[|ops| - 1];
      AllReferences(api, ops[..|ops| - 1]) + if last.hidden then [] else [ReferencesOf(api, last)]
  }

  /** Between two operations: nothing is left open, and only wanted models have been claimed. */
  ghost predicate Settled(api: Api, wanted: set<string>, s: Snapshot)
    requires WellFormed(api)
  {
    Inv(api, s) && Open(s) == {} && OwnersWanted(api, wanted, s)
  }

  lemma AddedIsSettled(api: Api, wanted: set<string>, s: Snapshot, s': Snapshot, name: string, r: Result<string, Error>)
    requires WellFormed(api) && Settled(api, wanted, s) && name in wanted
    requires Added(api, s, s', Resolve(api, name), r)
    ensures Inv(api, s') && s.visited <= s'.visited && OwnersWanted(api, wanted, s')
    ensures r.Ok? ==> Settled(api, wanted, s') && api.schemaName(Resolve(api, name)) in s'.visited
    ensures r.Ok? ==> r.value == api.schemaName(Resolve(api, name))
    ensures r.Err? ==> Blamed(api, Resolve(api, name), r.error)
  {
    hide Healthy, Describe, MentionsWithin, Reaches, Blamed, Fault;
  }

  /** A wanted model is at fault. */
  ghost predicate Faulted(api: Api, wanted: set<string>, e: Error)
    requires WellFormed(api)
  {
    exists name :: name in wanted && Blamed(api, Resolve(api, name), e)
  }

  method AddNamed(generator: Generator, name: string, ghost wanted: set<string>) returns (r: Result<string, Error>)
    requires WellFormed(generator.api) && Settled(generator.api, wanted, generator.Now()) && name in wanted
    modifies generator
    ensures var (api, s, s') := (generator.api, old(generator.Now()), generator.Now());
            && Inv(api, s') && s.visited <= s'.visited && OwnersWanted(api, wanted, s')
            && match r
               case Ok(schema) => Settled(api, wanted, s') && schema == api.schemaName(Resolve(api, name))
                                  && schema in s'.visited
               case Err(e) => Blamed(api, Resolve(api, name), e)
  {
    hide Inv, OwnersWanted, Added, Blamed;
    assert HasEnd(generator.api.errors, name);
    ghost var steps: nat :| AliasEnds(generator.api.errors, name, steps);
    ghost var s := generator.Now();
    SettledInv(generator.api, wanted, s);
    r := generator.AddSchema(name, steps);
    AddedIsSettled(generator.api, wanted, s, generator.Now(), name, r);
  }

  lemma SettledInv(api: Api, wanted: set<string>, s: Snapshot)
    requires WellFormed(api) && Settled(api, wanted, s)
    ensures Inv(api, s) && OwnersWanted(api, wanted, s)
  {
  }

  ghost predicate StatusesGood(api: Api, op: Operation, i: nat) {
    i <= |op.responseModels| && forall j | 0 <= j < i :: !BadStatus(api, op.responseModels[j])
  }

  /** The names that are looked at before the i-th response. */
  ghost function EarlierNames(op: Operation, i: nat): set<string> {
    (if HasRequestModel(op) then {op.requestModel} else {})
    + set j | 0 <= j < i && j < |op.responseModels| :: op.responseModels[j]
  }

  lemma AllNamesAreEarlier(op: Operation)
    ensures EarlierNames(op, |op.responseModels|) == NamedBy(op)
  {
    forall name | name in NamedBy(op)
      ensures name in EarlierNames(op, |op.responseModels|)
    {
      if name in op.responseModels {
        var j :| 0 <= j < |op.responseModels| && op.responseModels[j] == name;
      }
    }
  }

  /** A state of the generator in which these names have got their models. */
  ghost predicate Claimed(api: Api, wanted: set<string>, names: set<string>, s: Snapshot)
    requires WellFormed(api)
  {
    Settled(api, wanted, s) && NamesClaimed(api, names, s)
  }

  lemma ClaimedFromRequest(api: Api, wanted: set<string>, op: Operation, s: Snapshot)
    requires WellFormed(api) && Settled(api, wanted, s)
    requires HasRequestModel(op) ==> api.schemaName(Resolve(api, op.requestModel)) in s.visited
    ensures Claimed(api, wanted, EarlierNames(op, 0), s)
  {
    hide Settled;
  }

  lemma ClaimedMore(api: Api, wanted: set<string>, op: Operation, i: nat, s: Snapshot, s': Snapshot)
    requires WellFormed(api) && i < |op.responseModels| && Claimed(api, wanted, EarlierNames(op, i), s)
    requires Settled(api, wanted, s') && s.visited <= s'.visited
    requires api.schemaName(Resolve(api, op.responseModels[i])) in s'.visited
    ensures Claimed(api, wanted, EarlierNames(op, i + 1), s')
  {
    hide Settled;
    forall name | name in EarlierNames(op, i + 1)
      ensures api.schemaName(Resolve(api, name)) in s'.visited
    {
      assert name == op.responseModels[i] || name in EarlierNames(op, i);
    }
  }

  lemma ClaimedMeans(api: Api, wanted: set<string>, names: set<string>, s: Snapshot)
    requires WellFormed(api) && Claimed(api, wanted, names, s)
    ensures Settled(api, wanted, s) && NamesClaimed(api, names, s)
  {
  }

  /** The i-th response is the first with something wrong: its model, or, after that, its status. */
  ghost predicate FailsAtResponse(api: Api, wanted: set<string>, op: Operation, i: nat, at: Snapshot, e: Error)
    requires WellFormed(api)
  {
    && i < |op.responseModels| && StatusesGood(api, op, i)
    && var name := op.responseModels[i];
       || (Claimed(api, wanted, EarlierNames(op, i), at) && Blamed(api, Resolve(api, name), e))
       || (Claimed(api, wanted, EarlierNames(op, i + 1), at) && BadStatus(api, name) && e == BadStatusCode(name))
  }

  ghost predicate FailsAtVerb(api: Api, wanted: set<string>, op: Operation, at: Snapshot, e: Error)
    requires WellFormed(api)
  {
    && Claimed(api, wanted, NamedBy(op), at) && StatusesGood(api, op, |op.responseModels|)
    && !KnownVerb(op.verb) && e == UnknownRouteOperation
  }

  /** An operation ends in the first thing that goes wrong: its securities, its parameters, its request, its responses
      in order, its verb. */
  ghost predicate FailsWith(api: Api, wanted: set<string>, op: Operation, e: Error)
    requires WellFormed(api)
  {
    if op.securities.Some? && op.securities.value > 1 then e == OnlyOneSecurityAllowed
    else if op.securities == Some(0) then e == EmptySecurity
    else if exists t | t in op.parameterTypes :: !KnownParameterType(t) then e == UnknownParameterType
    else
      || (HasRequestModel(op) && Blamed(api, Resolve(api, op.requestModel), e))
      || (exists i, at :: FailsAtResponse(api, wanted, op, i, at, e))
      || (exists at :: FailsAtVerb(api, wanted, op, at, e))
  }

  lemma FailureIsFault(api: Api, wanted: set<string>, op: Operation, e: Error)
    requires WellFormed(api) && FailsWith(api, wanted, op, e)
    ensures OperationFault(api, op, e) || Faulted(api, NamedBy(op), e)
  {
    hide Blamed, BadStatus, Claimed;
    if i: nat, at :| FailsAtResponse(api, wanted, op, i, at, e) {
      assert op.responseModels[i] in op.responseModels && op.responseModels[i] in NamedBy(op);
    }
    if HasRequestModel(op) {
      assert op.requestModel in NamedBy(op);
    }
  }

  ghost predicate OperationDone(api: Api, wanted: set<string>, s': Snapshot, op: Operation,
                                r: Result<References, Error>)
    requires WellFormed(api)
  {
    && Inv(api, s') && OwnersWanted(api, wanted, s')
    && match r
       case Ok(references) =>
         && Settled(api, wanted, s') && OperationSound(api, op)
         && references == ReferencesOf(api, op) && NamesClaimed(api, NamedBy(op), s')
       case Err(e) => FailsWith(api, wanted, op, e)
  }

  method GenerateOperation(generator: Generator, op: Operation, ghost wanted: set<string>)
    returns (r: Result<References, Error>)
    requires WellFormed(generator.api) && Settled(generator.api, wanted, generator.Now()) && NamedBy(op) <= wanted
    modifies generator
    ensures old(generator.visited) <= generator.visited
    ensures OperationDone(generator.api, wanted, generator.Now(), op, r)
  {
    hide Inv, OwnersWanted, Settled, Blamed, BadStatus, Claimed, EarlierNames, NamesClaimed;
    ghost var api := generator.api;
    SettledInv(api, wanted, generator.Now());
    if op.securities.Some? {
      if op.securities.value > 1 {
        return Err(OnlyOneSecurityAllowed);
      }
      if op.securities.value == 0 {
        return Err(EmptySecurity);
      }
    }
    for i := 0 to |op.parameterTypes|
      invariant forall t | t in op.parameterTypes[..i] :: KnownParameterType(t)
    {
      if !KnownParameterType(op.parameterTypes[i]) {
        assert op.parameterTypes[i] in op.parameterTypes;
        return Err(UnknownParameterType);
      }
    }
    assert op.parameterTypes[..|op.parameterTypes|] == op.parameterTypes;
    var request := None;
    if HasRequestModel(op) {
      var schema := AddNamed(generator, op.requestModel, wanted);
      if schema.Err? {
        return Err(schema.error);
      }
      request := Some(schema.value);
    }
    ClaimedFromRequest(api, wanted, op, generator.Now());
    var responses := [];
    for i := 0 to |op.responseModels|
      invariant old(generator.visited) <= generator.visited && Settled(api, wanted, generator.Now())
      invariant Claimed(api, wanted, EarlierNames(op, i), generator.Now())
      invariant |responses| == i
      invariant forall j | 0 <= j < i :: responses[j] == api.schemaName(Resolve(api, op.responseModels[j]))
      invariant forall j | 0 <= j < i :: !BadStatus(api, op.responseModels[j])
    {
      var name := op.responseModels[i];
      assert name in NamedBy(op);
      ghost var s := generator.Now();
      var schema := AddNamed(generator, name, wanted);
      if schema.Err? {
        assert FailsAtResponse(api, wanted, op, i, s, schema.error);
        return Err(schema.error);
      }
      ClaimedMore(api, wanted, op, i, s, generator.Now());
      if BadStatus(generator.api, name) {
        assert FailsAtResponse(api, wanted, op, i, generator.Now(), BadStatusCode(name));
        return Err(BadStatusCode(name));
      }
      responses := responses + [schema.value];
    }
    SettledInv(api, wanted, generator.Now());
    AllNamesAreEarlier(op);
    ClaimedMeans(api, wanted, NamedBy(op), generator.Now());
    if !KnownVerb(op.verb) {
      assert FailsAtVerb(api, wanted, op, generator.Now(), UnknownRouteOperation);
      return Err(UnknownRouteOperation);
    }
    return Ok(References(request, responses));
  }

  ghost predicate SoFar(api: Api, ops: seq<Operation>, i: nat, s: Snapshot, references: seq<References>)
    requires WellFormed(api) && i <= |ops|
  {
    && Settled(api, Requested(ops), s) && references == AllReferences(api, ops[..i])
    && forall j | 0 <= j < i && !ops[j].hidden :: OperationSound(api, ops[j]) && NamesClaimed(api, NamedBy(ops[j]), s)
  }

  /** The i-th operation ended the run; those before it were done. */
  ghost predicate FailsAt(api: Api, ops: seq<Operation>, i: nat, s: Snapshot, references: seq<References>, e: Error)
    requires WellFormed(api)
  {
    i < |ops| && !ops[i].hidden && SoFar(api, ops, i, s, references)
    && FailsWith(api, Requested(ops), ops[i], e)
  }

  /** What a whole run over the routes leaves. */
  ghost predicate Generated(api: Api, ops: seq<Operation>, s: Snapshot, r: Result<seq<References>, Error>)
    requires WellFormed(api)
  {
    && Inv(api, s) && OwnersWanted(api, Requested(ops), s)
    && match r
       case Ok(references) =>
         && Open(s) == {} && references == AllReferences(api, ops) && NamesClaimed(api, Requested(ops), s)
         && forall op | op in Visible(ops) :: OperationSound(api, op)
       case Err(e) => exists i, before, references :: FailsAt(api, ops, i, before, references, e)
  }

  /** Something a run over these operations could end in. */
  ghost predicate RunFault(api: Api, ops: seq<Operation>, e: Error)
    requires WellFormed(api)
  {
    Faulted(api, Requested(ops), e) || exists op | op in Visible(ops) :: OperationFault(api, op, e)
  }

  lemma FailureOfRun(api: Api, ops: seq<Operation>, i: nat, e: Error)
    requires WellFormed(api) && i < |ops| && !ops[i].hidden && FailsWith(api, Requested(ops), ops[i], e)
    ensures RunFault(api, ops, e)
  {
    hide FailsWith, OperationFault, Blamed;
    FailureIsFault(api, Requested(ops), ops[i], e);
    assert ops[i] in Visible(ops);
  }

  lemma NothingYet(api: Api, ops: seq<Operation>, s: Snapshot)
    requires WellFormed(api) && s == Snapshot({}, map[], map[])
    ensures SoFar(api, ops, 0, s, [])
  {
  }

  lemma StepSoFar(api: Api, ops: seq<Operation>, i: nat, s: Snapshot, s': Snapshot, references: seq<References>,
                  r: Result<References, Error>)
    requires WellFormed(api) && i < |ops| && SoFar(api, ops, i, s, references)
    requires s.visited <= s'.visited && OperationDone(api, Requested(ops), s', ops[i], r) && !ops[i].hidden
    ensures r.Ok? ==> SoFar(api, ops, i + 1, s', references + [r.value])
    ensures r.Err? ==> Generated(api, ops, s', Err(r.error))
  {
    hide Inv, Settled, OwnersWanted, OperationSound, FailsWith;
    assert ops[..i + 1][..i] == ops[..i];
    assert ops[i] in Visible(ops);
    if r.Err? {
      assert FailsAt(api, ops, i, s, references, r.error);
    }
  }

  lemma SkipHidden(api: Api, ops: seq<Operation>, i: nat, s: Snapshot, references: seq<References>)
    requires WellFormed(api) && i < |ops| && SoFar(api, ops, i, s, references) && ops[i].hidden
    ensures SoFar(api, ops, i + 1, s, references)
  {
    hide Settled, OperationSound;
    assert ops[..i + 1][..i] == ops[..i];
  }

  lemma AllGenerated(api: Api, ops: seq<Operation>, s: Snapshot, references: seq<References>)
    requires WellFormed(api) && SoFar(api, ops, |ops|, s, references)
    ensures Generated(api, ops, s, Ok(references))
  {
    hide Inv, OwnersWanted, OperationSound;
    assert ops[..|ops|] == ops;
    forall op | op in Visible(ops)
      ensures OperationSound(api, op) && NamesClaimed(api, NamedBy(op), s)
    {
      var j :| 0 <= j < |ops| && ops[j] == op;
    }
  }

  method Generate(generator: Generator, ops: seq<Operation>) returns (r: Result<seq<References>, Error>)
    requires WellFormed(generator.api) && generator.Now() == Snapshot({}, map[], map[])
    modifies generator
    ensures Generated(generator.api, ops, generator.Now(), r)
  {
    hide SoFar, Generated, Settled, OperationDone;
    ghost var api := generator.api;
    var references := [];
    NothingYet(api, ops, generator.Now());
    for i := 0 to |ops|
      invariant SoFar(api, ops, i, generator.Now(), references)
    {
      ghost var s := generator.Now();
      if ops[i].hidden {
        SkipHidden(api, ops, i, s, references);
        continue;
      }
      NamesAreRequested(api, ops, i, s, references);
      var one := GenerateOperation(generator, ops[i], Requested(ops));
      StepSoFar(api, ops, i, s, generator.Now(), references, one);
      if one.Err? {
        return Err(one.error);
      }
      references := references + [one.value];
    }
    AllGenerated(api, ops, generator.Now(), references);
    return Ok(references);
  }

  lemma NamesAreRequested(api: Api, ops: seq<Operation>, i: nat, s: Snapshot, references: seq<References>)
    requires WellFormed(api) && i < |ops| && SoFar(api, ops, i, s, references) && !ops[i].hidden
    ensures Settled(api, Requested(ops), s) && NamedBy(ops[i]) <= Requested(ops)
  {
    assert ops[i] in Visible(ops);
  }

  // ---------- What a run gives ----------

  /** When nothing is left open, what has been claimed has a schema, and that refers only to others that have one. */
  lemma NothingOpen(api: Api, s: Snapshot)
    requires WellFormed(api) && Inv(api, s) && Open(s) == {}
    ensures s.visited == s.schemas.Keys
    ensures forall n, x | n in s.schemas && Mentions(s.schemas[n], x) :: x in s.schemas
  {
    hide Healthy, Describe, Mentions;
    forall n | n in s.visited
      ensures n in s.schemas
    {
      assert n in s.schemas || n in Open(s);
    }
    forall n, x | n in s.schemas && Mentions(s.schemas[n], x)
      ensures x in s.schemas
    {
      assert MentionsWithin(s.schemas[n], s.visited);
    }
  }

  ghost predicate ReferencesWithin(references: References, names: set<string>) {
    && (references.request.Some? ==> references.request.value in names)
    && (forall x | x in references.responses :: x in names)
  }

  lemma NamedAreWithin(api: Api, op: Operation, s: Snapshot, names: set<string>)
    requires NamesClaimed(api, names, s) && NamedBy(op) <= names
    ensures ReferencesWithin(ReferencesOf(api, op), s.visited)
  {
    forall x | x in ReferencesOf(api, op).responses
      ensures x in s.visited
    {
      var i :| 0 <= i < |op.responseModels| && x == api.schemaName(Resolve(api, op.responseModels[i]));
      assert op.responseModels[i] in NamedBy(op);
    }
    if HasRequestModel(op) {
      assert op.requestModel in NamedBy(op);
    }
  }

  lemma OperationsReferToSchemas(api: Api, ops: seq<Operation>, s: Snapshot, references: seq<References>)
    requires WellFormed(api) && Generated(api, ops, s, Ok(references))
    ensures forall k | 0 <= k < |references| :: ReferencesWithin(references[k], s.schemas.Keys)
  {
    hide Inv, Mentions, ReferencesWithin, OwnersWanted, OperationSound, NamesClaimed, ReferencesOf, NamedBy;
    NothingOpen(api, s);
    forall k | 0 <= k < |references|
      ensures ReferencesWithin(references[k], s.schemas.Keys)
    {
      var op := SourceOfReferences(api, ops, k);
      NamedAreWithin(api, op, s, Requested(ops));
    }
  }

  /** Every "$ref" names a schema: those of the operations, and those in schemas, even of schemas that were unfinished
      when it was written. */
  lemma NoDanglingReference(api: Api, ops: seq<Operation>, s: Snapshot, references: seq<References>)
    requires WellFormed(api) && Generated(api, ops, s, Ok(references))
    ensures forall n, x | n in s.schemas && Mentions(s.schemas[n], x) :: x in s.schemas
    ensures forall k | 0 <= k < |references| :: ReferencesWithin(references[k], s.schemas.Keys)
  {
    hide Inv, Mentions, ReferencesWithin, OwnersWanted, OperationSound, NamesClaimed;
    NothingOpen(api, s);
    OperationsReferToSchemas(api, ops, s, references);
  }

  lemma {:induction false} SourceOfReferences(api: Api, ops: seq<Operation>, k: nat) returns (op: Operation)
    requires WellFormed(api) && k < |AllReferences(api, ops)|
    ensures op in Visible(ops) && AllReferences(api, ops)[k] == ReferencesOf(api, op)
    decreases |ops|
  {
    var before := ops[..|ops| - 1];
    if k < |AllReferences(api, before)| {
      op := SourceOfReferences(api, before, k);
    } else {
      op := ops[|ops| - 1];
    }
  }

  /** No two wanted models share a schema name. */
  ghost predicate NamesDiffer(api: Api, ops: seq<Operation>)
    requires WellFormed(api)
  {
    var wanted := Requested(ops);
    forall a, b | Wanted(api, wanted, a) && Wanted(api, wanted, b) && api.schemaName(a) == api.schemaName(b) :: a == b
  }

  /** A wanted model that owns its name, when all names are met. */
  lemma ClaimedIsDescribed(api: Api, ops: seq<Operation>, s: Snapshot, m: string)
    requires WellFormed(api) && Inv(api, s) && Open(s) == {} && OwnersWanted(api, Requested(ops), s)
             && NamesDiffer(api, ops)
    requires Wanted(api, Requested(ops), m) && api.schemaName(m) in s.visited
    ensures Healthy(api, m) && api.schemaName(m) in s.schemas && s.schemas[api.schemaName(m)] == Describe(api, m)
  {
    hide Healthy, Describe, MentionsWithin, Wanted;
    NothingOpen(api, s);
    assert Wanted(api, Requested(ops), s.owner[api.schemaName(m)]);
  }

  lemma TargetIsClaimed(api: Api, s: Snapshot, a: string, m: string)
    requires WellFormed(api) && Inv(api, s) && Edge(api, a, m)
    requires Healthy(api, a) && api.schemaName(a) in s.schemas && s.schemas[api.schemaName(a)] == Describe(api, a)
    ensures api.schemaName(m) in s.visited
  {
    hide Healthy, Describe, Mentions, Edge;
    MentionsAreTargets(api, a, api.schemaName(m));
    assert MentionsWithin(s.schemas[api.schemaName(a)], s.visited);
  }

  lemma PathPrefix(api: Api, a: string, p: seq<string>, m: string)
    requires WellFormed(api) && PathTo(api, a, p, m) && |p| > 1
    ensures PathTo(api, a, p[..|p| - 1], p[|p| - 2]) && Edge(api, p[|p| - 2], m)
  {
    hide Edge;
    assert Edge(api, p[|p| - 2], p[|p| - 1]);
  }

  /** A wanted model has its schema: along the path that leads to it, each model's schema refers to the next. */
  lemma {:induction false} WantedIsDescribed(api: Api, ops: seq<Operation>, s: Snapshot, name: string, p: seq<string>,
                                             m: string)
    requires WellFormed(api) && Settled(api, Requested(ops), s) && NamesDiffer(api, ops)
    requires name in Requested(ops) && api.schemaName(Resolve(api, name)) in s.visited
    requires PathTo(api, Resolve(api, name), p, m)
    ensures Healthy(api, m) && api.schemaName(m) in s.schemas && s.schemas[api.schemaName(m)] == Describe(api, m)
    decreases |p|
  {
    hide Inv, Healthy, Describe, Edge, NamesDiffer, OwnersWanted;
    if |p| > 1 {
      PathPrefix(api, Resolve(api, name), p, m);
      WantedIsDescribed(api, ops, s, name, p[..|p| - 1], p[|p| - 2]);
      TargetIsClaimed(api, s, p[|p| - 2], m);
    }
    assert Reaches(api, Resolve(api, name), m);
    ClaimedIsDescribed(api, ops, s, m);
  }

  /** What some of the names want has been described once those names have been claimed. */
  lemma ClaimedNamesAreDescribed(api: Api, ops: seq<Operation>, s: Snapshot, names: set<string>, m: string)
    requires WellFormed(api) && Settled(api, Requested(ops), s) && NamesDiffer(api, ops)
    requires names <= Requested(ops) && NamesClaimed(api, names, s) && Wanted(api, names, m)
    ensures Healthy(api, m) && api.schemaName(m) in s.schemas && s.schemas[api.schemaName(m)] == Describe(api, m)
  {
    hide Settled, NamesDiffer, Healthy, Describe, Reaches;
    var name :| name in names && Reaches(api, Resolve(api, name), m);
    var p := PathOf(api, Resolve(api, name), m);
    WantedIsDescribed(api, ops, s, name, p, m);
  }

  /** When names differ, the components are the models the routes reach, each described as it is. */
  lemma ComponentsAreReachableModels(api: Api, ops: seq<Operation>, s: Snapshot, references: seq<References>)
    requires WellFormed(api) && Generated(api, ops, s, Ok(references)) && NamesDiffer(api, ops)
    ensures forall n :: n in s.schemas <==> exists m :: Wanted(api, Requested(ops), m) && api.schemaName(m) == n
    ensures forall m | Wanted(api, Requested(ops), m) ::
              Healthy(api, m) && api.schemaName(m) in s.schemas && s.schemas[api.schemaName(m)] == Describe(api, m)
  {
    hide Healthy, Describe, Reaches, NamesDiffer;
    forall m | Wanted(api, Requested(ops), m)
      ensures Healthy(api, m) && api.schemaName(m) in s.schemas && s.schemas[api.schemaName(m)] == Describe(api, m)
    {
      ClaimedNamesAreDescribed(api, ops, s, Requested(ops), m);
    }
    forall n | n in s.schemas
      ensures exists m :: Wanted(api, Requested(ops), m) && api.schemaName(m) == n
    {
      assert Wanted(api, Requested(ops), s.owner[n]) && api.schemaName(s.owner[n]) == n;
    }
  }

  lemma PathOf(api: Api, a: string, b: string) returns (p: seq<string>)
    requires WellFormed(api) && Reaches(api, a, b)
    ensures PathTo(api, a, p, b)
  {
    p :| PathTo(api, a, p, b);
  }

  lemma FailedWithFault(api: Api, ops: seq<Operation>, s: Snapshot, e: Error)
    requires WellFormed(api) && Generated(api, ops, s, Err(e))
    ensures RunFault(api, ops, e)
  {
    hide RunFault, FailsWith, SoFar;
    var i: nat, before, references :| FailsAt(api, ops, i, before, references, e);
    FailureOfRun(api, ops, i, e);
  }

  /** When names differ, a run succeeds exactly when every operation and every model the routes reach is sound. */
  lemma SucceedsExactlyWhenSound(api: Api, ops: seq<Operation>, s: Snapshot, r: Result<seq<References>, Error>)
    requires WellFormed(api) && Generated(api, ops, s, r) && NamesDiffer(api, ops)
    ensures r.Ok? <==>
              && (forall op | op in Visible(ops) :: OperationSound(api, op))
              && (forall m | Wanted(api, Requested(ops), m) :: Healthy(api, m))
  {
    hide Describe, Reaches, NamesDiffer, OperationSound, OperationFault, Healthy, Fault;
    match r
    case Ok(references) => ComponentsAreReachableModels(api, ops, s, references);
    case Err(e) =>
      FailedWithFault(api, ops, s, e);
      if Faulted(api, Requested(ops), e) {
        var name :| name in Requested(ops) && Blamed(api, Resolve(api, name), e);
        var m :| Reaches(api, Resolve(api, name), m) && Fault(api, m, e);
        FaultyIsUnhealthy(api, m, e);
      } else {
        var op :| op in Visible(ops) && OperationFault(api, op, e);
        SoundIsFaultless(api, op);
      }
  }

  lemma FaultyIsUnhealthy(api: Api, m: string, e: Error)
    requires WellFormed(api) && Fault(api, m, e)
    ensures !Healthy(api, m)
  {
  }

  /** Everything that comes before the i-th operation is sound: the operations and the models they reach. */
  ghost predicate SoundBefore(api: Api, ops: seq<Operation>, i: nat)
    requires WellFormed(api) && i <= |ops|
  {
    && (forall op | op in Visible(ops[..i]) :: OperationSound(api, op))
    && (forall m | Wanted(api, Requested(ops[..i]), m) :: Healthy(api, m))
  }

  lemma NamesBefore(api: Api, ops: seq<Operation>, i: nat, s: Snapshot, references: seq<References>)
    requires WellFormed(api) && i <= |ops| && SoFar(api, ops, i, s, references)
    ensures Requested(ops[..i]) <= Requested(ops) && NamesClaimed(api, Requested(ops[..i]), s)
    ensures forall op | op in Visible(ops[..i]) :: OperationSound(api, op)
  {
    hide Settled, OperationSound, NamedBy;
    forall op | op in Visible(ops[..i])
      ensures op in Visible(ops) && OperationSound(api, op) && NamesClaimed(api, NamedBy(op), s)
    {
      var j :| 0 <= j < i && ops[j] == op;
    }
  }

  lemma DoneIsSound(api: Api, ops: seq<Operation>, i: nat, s: Snapshot, references: seq<References>)
    requires WellFormed(api) && i <= |ops| && SoFar(api, ops, i, s, references) && NamesDiffer(api, ops)
    ensures SoundBefore(api, ops, i)
  {
    NamesBefore(api, ops, i, s, references);
    hide Settled, OperationSound, NamesDiffer, Healthy, Wanted, Describe, Requested, NamesClaimed;
    forall m | Wanted(api, Requested(ops[..i]), m)
      ensures Healthy(api, m)
    {
      ClaimedNamesAreDescribed(api, ops, s, Requested(ops[..i]), m);
    }
  }

  /** The model that a name leads to and all that it reaches are sound. */
  ghost predicate NameSound(api: Api, name: string)
    requires WellFormed(api)
  {
    forall m | Reaches(api, Resolve(api, name), m) :: Healthy(api, m)
  }

  /** The request and the first i responses are sound. */
  ghost predicate NamesSound(api: Api, op: Operation, i: nat)
    requires WellFormed(api)
  {
    forall name | name in EarlierNames(op, i) :: NameSound(api, name)
  }

  /** The error is the first thing wrong with the operation, from the top of its description to the bottom; of what is
      wrong with one name's models it may be any. */
  ghost predicate FirstFault(api: Api, op: Operation, e: Error)
    requires WellFormed(api)
  {
    if op.securities.Some? && op.securities.value > 1 then e == OnlyOneSecurityAllowed
    else if op.securities == Some(0) then e == EmptySecurity
    else if exists t | t in op.parameterTypes :: !KnownParameterType(t) then e == UnknownParameterType
    else if !NamesSound(api, op, 0) then Blamed(api, Resolve(api, op.requestModel), e)
    else if exists i :: FirstBadResponse(api, op, i) then
      exists i :: FirstBadResponse(api, op, i) && EndsAt(api, op, i, e)
    else !KnownVerb(op.verb) && e == UnknownRouteOperation
  }

  ghost predicate FirstBadResponse(api: Api, op: Operation, i: nat)
    requires WellFormed(api)
  {
    && i < |op.responseModels| && StatusesGood(api, op, i) && NamesSound(api, op, i)
    && (BadStatus(api, op.responseModels[i]) || !NameSound(api, op.responseModels[i]))
  }

  ghost predicate EndsAt(api: Api, op: Operation, i: nat, e: Error)
    requires WellFormed(api) && i < |op.responseModels|
  {
    var name := op.responseModels[i];
    if NameSound(api, name) then e == BadStatusCode(name) else Blamed(api, Resolve(api, name), e)
  }

  lemma ClaimedAreSound(api: Api, ops: seq<Operation>, op: Operation, i: nat, at: Snapshot)
    requires WellFormed(api) && NamesDiffer(api, ops) && op in Visible(ops)
    requires Claimed(api, Requested(ops), EarlierNames(op, i), at)
    ensures NamesSound(api, op, i)
  {
    hide Settled, NamesDiffer, Healthy, Describe, Reaches, NamesClaimed;
    var names := EarlierNames(op, i);
    assert names <= NamedBy(op) <= Requested(ops);
    forall name, m | name in names && Reaches(api, Resolve(api, name), m)
      ensures Healthy(api, m)
    {
      ClaimedNamesAreDescribed(api, ops, at, names, m);
    }
  }

  lemma BlamedIsUnsound(api: Api, name: string, e: Error)
    requires WellFormed(api) && Blamed(api, Resolve(api, name), e)
    ensures !NameSound(api, name)
  {
    hide Healthy, Fault;
    var m :| Reaches(api, Resolve(api, name), m) && Fault(api, m, e);
    FaultyIsUnhealthy(api, m, e);
  }

  lemma FirstResponseFails(api: Api, ops: seq<Operation>, op: Operation, i: nat, at: Snapshot, e: Error)
    requires WellFormed(api) && NamesDiffer(api, ops) && op in Visible(ops)
    requires FailsAtResponse(api, Requested(ops), op, i, at, e)
    ensures NamesSound(api, op, 0) && FirstBadResponse(api, op, i) && EndsAt(api, op, i, e)
  {
    hide Claimed, NameSound, Blamed, BadStatus, NamesDiffer;
    var name := op.responseModels[i];
    if Blamed(api, Resolve(api, name), e) && Claimed(api, Requested(ops), EarlierNames(op, i), at) {
      ClaimedAreSound(api, ops, op, i, at);
      BlamedIsUnsound(api, name, e);
    } else {
      ClaimedAreSound(api, ops, op, i + 1, at);
      assert name in EarlierNames(op, i + 1);
    }
    assert EarlierNames(op, 0) <= EarlierNames(op, i) <= EarlierNames(op, i + 1);
  }

  lemma VerbFails(api: Api, ops: seq<Operation>, op: Operation, at: Snapshot, e: Error)
    requires WellFormed(api) && NamesDiffer(api, ops) && op in Visible(ops)
    requires FailsAtVerb(api, Requested(ops), op, at, e)
    ensures NamesSound(api, op, 0) && forall i :: !FirstBadResponse(api, op, i)
  {
    hide Claimed, NameSound, BadStatus, NamesDiffer;
    AllNamesAreEarlier(op);
    ClaimedAreSound(api, ops, op, |op.responseModels|, at);
    assert EarlierNames(op, 0) <= EarlierNames(op, |op.responseModels|);
    forall i: nat
      ensures !FirstBadResponse(api, op, i)
    {
      assert i < |op.responseModels| ==> op.responseModels[i] in EarlierNames(op, |op.responseModels|);
    }
  }

  lemma FailsWithFirstFault(api: Api, ops: seq<Operation>, op: Operation, e: Error)
    requires WellFormed(api) && NamesDiffer(api, ops) && op in Visible(ops) && FailsWith(api, Requested(ops), op, e)
    ensures FirstFault(api, op, e)
  {
    hide Claimed, NameSound, Blamed, BadStatus, NamesDiffer, FailsAtResponse, FailsAtVerb, FirstBadResponse, EndsAt;
    if HasRequestModel(op) && Blamed(api, Resolve(api, op.requestModel), e) {
      BlamedIsUnsound(api, op.requestModel, e);
      assert op.requestModel in EarlierNames(op, 0);
    } else if i: nat, at :| FailsAtResponse(api, Requested(ops), op, i, at, e) {
      FirstResponseFails(api, ops, op, i, at, e);
    } else if at :| FailsAtVerb(api, Requested(ops), op, at, e) {
      VerbFails(api, ops, op, at, e);
      VerbErrs(api, Requested(ops), op, at, e);
    }
  }

  lemma VerbErrs(api: Api, wanted: set<string>, op: Operation, at: Snapshot, e: Error)
    requires WellFormed(api) && FailsAtVerb(api, wanted, op, at, e)
    ensures !KnownVerb(op.verb) && e == UnknownRouteOperation
  {
  }

  lemma FaultBreaks(api: Api, ops: seq<Operation>, op: Operation, e: Error)
    requires WellFormed(api) && op in ops && !op.hidden
    requires OperationFault(api, op, e) || Faulted(api, NamedBy(op), e)
    ensures (exists x | x in Visible(ops) :: !OperationSound(api, x))
            || exists m :: Wanted(api, Requested(ops), m) && !Healthy(api, m)
  {
    hide OperationSound, Healthy, OperationFault, Fault, NamedBy;
    assert op in Visible(ops);
    SoundIsFaultless(api, op);
    if Faulted(api, NamedBy(op), e) {
      var name :| name in NamedBy(op) && Blamed(api, Resolve(api, name), e);
      var m :| Reaches(api, Resolve(api, name), m) && Fault(api, m, e);
      FaultyIsUnhealthy(api, m, e);
      assert name in Requested(ops);
    }
  }

  lemma FirstFaultIsBad(api: Api, op: Operation, e: Error)
    requires WellFormed(api) && FirstFault(api, op, e)
    ensures !OperationSound(api, op) || exists name | name in NamedBy(op) :: !NameSound(api, name)
  {
    hide NameSound, Blamed, BadStatus, EndsAt;
    if !NamesSound(api, op, 0) {
      assert EarlierNames(op, 0) <= NamedBy(op);
    }
  }

  lemma BeforeIsSound(api: Api, ops: seq<Operation>, i: nat, j: nat)
    requires WellFormed(api) && j < i <= |ops| && SoundBefore(api, ops, i) && !ops[j].hidden
    ensures OperationSound(api, ops[j]) && forall name | name in NamedBy(ops[j]) :: NameSound(api, name)
  {
    hide OperationSound, Healthy, Reaches, NamedBy;
    assert ops[j] == ops[..i][j] && ops[j] in Visible(ops[..i]);
    forall name, m | name in NamedBy(ops[j]) && Reaches(api, Resolve(api, name), m)
      ensures Healthy(api, m)
    {
      assert name in Requested(ops[..i]);
    }
  }

  /** An operation that is not sound, or names something that is not. */
  ghost predicate Bad(api: Api, op: Operation)
    requires WellFormed(api)
  {
    !OperationSound(api, op) || exists name | name in NamedBy(op) :: !NameSound(api, name)
  }

  /** The first such operation of the routes. */
  ghost predicate FirstBad(api: Api, ops: seq<Operation>, i: nat)
    requires WellFormed(api)
  {
    i < |ops| && !ops[i].hidden && Bad(api, ops[i]) && SoundBefore(api, ops, i)
  }

  lemma FailedAtFirstBad(api: Api, ops: seq<Operation>, i: nat, s: Snapshot, references: seq<References>, e: Error)
    requires WellFormed(api) && NamesDiffer(api, ops) && FailsAt(api, ops, i, s, references, e)
    ensures FirstBad(api, ops, i) && FirstFault(api, ops[i], e)
  {
    hide SoFar, FailsWith, NamesDiffer, SoundBefore, FirstFault, OperationSound, NameSound;
    assert ops[i] in Visible(ops);
    FailsWithFirstFault(api, ops, ops[i], e);
    FirstFaultIsBad(api, ops[i], e);
    DoneIsSound(api, ops, i, s, references);
  }

  lemma OneFirstBad(api: Api, ops: seq<Operation>, i: nat, j: nat)
    requires WellFormed(api) && FirstBad(api, ops, i) && FirstBad(api, ops, j)
    ensures i == j
  {
    hide SoundBefore, OperationSound, NameSound;
    if j < i {
      BeforeIsSound(api, ops, i, j);
    } else if i < j {
      BeforeIsSound(api, ops, j, i);
    }
  }

  /** When names differ, a run fails exactly when some operation is bad, and ends at the first such operation in the
      first thing wrong with it. */
  lemma EndsInFirstFault(api: Api, ops: seq<Operation>, s: Snapshot, r: Result<seq<References>, Error>)
    requires WellFormed(api) && Generated(api, ops, s, r) && NamesDiffer(api, ops)
    ensures r.Err? <==> exists i :: FirstBad(api, ops, i)
    ensures forall i: nat | FirstBad(api, ops, i) :: i < |ops| && r.Err? && FirstFault(api, ops[i], r.error)
  {
    hide NamesDiffer, FailsAt, FirstBad, FirstFault;
    if r.Err? {
      var j: nat, before, references :| FailsAt(api, ops, j, before, references, r.error);
      FailedAtFirstBad(api, ops, j, before, references, r.error);
      WhereBad(api, ops, j);
      forall i: nat | FirstBad(api, ops, i)
        ensures i == j
      {
        OneFirstBad(api, ops, i, j);
      }
    } else {
      forall i: nat
        ensures !FirstBad(api, ops, i)
      {
        NoneBad(api, ops, s, r.value, i);
      }
    }
  }

  lemma NoneBad(api: Api, ops: seq<Operation>, s: Snapshot, references: seq<References>, i: nat)
    requires WellFormed(api) && Generated(api, ops, s, Ok(references)) && NamesDiffer(api, ops)
    ensures !FirstBad(api, ops, i)
  {
    hide NamesDiffer, Inv, OwnersWanted, Healthy, Reaches, OperationSound, SoundBefore, NamedBy, Describe;
    if i < |ops| && !ops[i].hidden {
      assert ops[i] in Visible(ops);
      ComponentsAreReachableModels(api, ops, s, references);
      forall name, m | name in NamedBy(ops[i]) && Reaches(api, Resolve(api, name), m)
        ensures Healthy(api, m)
      {
        assert name in Requested(ops) && Wanted(api, Requested(ops), m);
      }
    }
  }

  lemma FirstFaultIsEmptySecurity(api: Api, op: Operation)
    requires WellFormed(api)
    ensures FirstFault(api, op, EmptySecurity) <==> op.securities == Some(0)
    ensures forall e | op.securities == Some(0) && FirstFault(api, op, e) :: e == EmptySecurity
  {
    hide Reaches, NameSound, NamesSound, FirstBadResponse;
  }

  /** The first operation that is not fine is one whose list of securities is there but empty, which is how OpenAPI
      itself says that it needs none. */
  ghost predicate EmptySecurityFirst(api: Api, ops: seq<Operation>, i: nat)
    requires WellFormed(api)
  {
    i < |ops| && !ops[i].hidden && ops[i].securities == Some(0) && SoundBefore(api, ops, i)
  }

  lemma EmptySecurityIsBad(api: Api, ops: seq<Operation>, i: nat)
    requires WellFormed(api)
    ensures EmptySecurityFirst(api, ops, i) <==> FirstBad(api, ops, i) && ops[i].securities == Some(0)
  {
    hide SoundBefore, NameSound;
  }

  /** When names differ, a run ends in the generator indexing an empty list exactly when such an operation comes before
      anything else that is wrong. */
  lemma PanicsExactlyOnEmptySecurity(api: Api, ops: seq<Operation>, s: Snapshot, r: Result<seq<References>, Error>)
    requires WellFormed(api) && Generated(api, ops, s, r) && NamesDiffer(api, ops)
    ensures r == Err(EmptySecurity) <==> exists i :: EmptySecurityFirst(api, ops, i)
  {
    hide NamesDiffer, Generated, FirstBad, FirstFault, EmptySecurityFirst;
    EndsInFirstFault(api, ops, s, r);
    forall i: nat | FirstBad(api, ops, i) || EmptySecurityFirst(api, ops, i)
      ensures EmptySecurityFirst(api, ops, i) <==> r == Err(EmptySecurity)
    {
      EmptySecurityIsBad(api, ops, i);
      WhereBad(api, ops, i);
      FirstFaultIsEmptySecurity(api, ops[i]);
    }
  }

  lemma WhereBad(api: Api, ops: seq<Operation>, i: nat)
    requires WellFormed(api) && FirstBad(api, ops, i)
    ensures i < |ops|
  {
  }

  /** When names differ and there is one thing to go wrong, the run ends in it. */
  lemma OnlyFaultIsReported(api: Api, ops: seq<Operation>, s: Snapshot, r: Result<seq<References>, Error>, e: Error)
    requires WellFormed(api) && Generated(api, ops, s, r) && NamesDiffer(api, ops)
    requires RunFault(api, ops, e) && forall e' | RunFault(api, ops, e') :: e' == e
    ensures r == Err(e)
  {
    hide NamesDiffer, OperationSound, Healthy, OperationFault, Fault;
    if r.Err? {
      FailedWithFault(api, ops, s, r.error);
    } else {
      SucceedsExactlyWhenSound(api, ops, s, r);
      FaultOfRunBreaks(api, ops, e);
    }
  }

  lemma FaultOfRunBreaks(api: Api, ops: seq<Operation>, e: Error)
    requires WellFormed(api) && RunFault(api, ops, e)
    ensures (exists x | x in Visible(ops) :: !OperationSound(api, x))
            || exists m :: Wanted(api, Requested(ops), m) && !Healthy(api, m)
  {
    hide OperationSound, Healthy, OperationFault, Fault, NamedBy;
    if Faulted(api, Requested(ops), e) {
      var name :| name in Requested(ops) && Blamed(api, Resolve(api, name), e);
      var op :| op in Visible(ops) && name in NamedBy(op);
      FaultBreaks(api, ops, op, e);
    } else {
      var op :| op in Visible(ops) && OperationFault(api, op, e);
      FaultBreaks(api, ops, op, e);
    }
  }

  /** Names that differ or not, every operation of a successful run is sound, every entry describes a sound wanted
      model of that name, and every name the routes give has one. */
  lemma EntriesDescribeWantedModels(api: Api, ops: seq<Operation>, s: Snapshot, references: seq<References>)
    requires WellFormed(api) && Generated(api, ops, s, Ok(references))
    ensures forall n | n in s.schemas :: EntryOf(api, ops, s, n, s.owner[n])
    ensures forall name | name in Requested(ops) :: api.schemaName(Resolve(api, name)) in s.schemas
    ensures forall op | op in Visible(ops) :: OperationSound(api, op)
  {
    hide OperationSound, Requested, Healthy, Describe, MentionsWithin, Wanted;
    NothingOpen(api, s);
    assert forall name | name in Requested(ops) :: api.schemaName(Resolve(api, name)) in s.visited;
  }

  ghost predicate EntryOf(api: Api, ops: seq<Operation>, s: Snapshot, n: string, m: string)
    requires WellFormed(api)
  {
    && Wanted(api, Requested(ops), m) && api.schemaName(m) == n
    && Healthy(api, m) && n in s.schemas && s.schemas[n] == Describe(api, m)
  }

  /** A run over one operation whose list of securities is there but empty. */
  lemma EmptySecurityPanics(api: Api, ops: seq<Operation>, s: Snapshot, r: Result<seq<References>, Error>)
    requires WellFormed(api) && Generated(api, ops, s, r)
    requires ops == [Operation(false, "get", Some(0), [], 0, "", [])]
    ensures r == Err(EmptySecurity)
  {
    hide Generated, Reaches;
    assert ops[..0] == [] && Visible(ops[..0]) == {} && Requested(ops[..0]) == {};
    assert EmptySecurityFirst(api, ops, 0);
    assert NamedBy(ops[0]) == {} && Requested(ops) == {};
    PanicsExactlyOnEmptySecurity(api, ops, s, r);
  }

  /** One model, whose one field is a map of scalars. */
  ghost predicate MapOfScalars(api: Api) {
    && api.errors == map[] && api.enums == {}
    && api.models == map["M" := Message(true, ["f"], map["f" := Field(MessageKind("M.FEntry", None), None)])]
    && api.protoFields == map["M" := map["f" := ProtoField(false, true, false, false)]]
  }

  /** What is asked of an API holds of this one, so the run below is a run. */
  lemma MapOfScalarsIsWellFormed(api: Api)
    requires MapOfScalars(api)
    ensures WellFormed(api)
  {
    forall name: string
      ensures HasEnd(api.errors, name)
    {
      assert AliasEnds(api.errors, name, 0);
    }
  }

  lemma OnlyReachesItself(api: Api, a: string, b: string)
    requires WellFormed(api) && Reaches(api, a, b) && forall t :: !Edge(api, a, t)
    ensures a == b
  {
    var p :| PathTo(api, a, p, b);
    if |p| > 1 {
      FirstEdge(api, a, p, b);
    }
  }

  lemma FirstEdge(api: Api, a: string, p: seq<string>, b: string)
    requires WellFormed(api) && PathTo(api, a, p, b) && |p| > 1
    ensures Edge(api, a, p[1])
  {
    assert Edge(api, p[0], p[0 + 1]);
  }

  lemma RequestedIsHealthy(api: Api, ops: seq<Operation>, s: Snapshot, references: seq<References>, name: string)
    requires WellFormed(api) && Generated(api, ops, s, Ok(references)) && name in Requested(ops)
    ensures exists m :: Healthy(api, m)
  {
    hide Describe, SimpleOf, Mentions;
    NothingOpen(api, s);
    assert Healthy(api, s.owner[api.schemaName(Resolve(api, name))]);
  }

  /** A route that needs a model with a map of scalars makes the generator look at the message of a scalar. */
  lemma MapOfScalarsPanics(api: Api, ops: seq<Operation>, s: Snapshot, r: Result<seq<References>, Error>)
    requires WellFormed(api) && MapOfScalars(api)
    requires ops == [Operation(false, "get", None, [], 0, "M", [])] && Generated(api, ops, s, r)
    ensures r == Err(NilMessage("M", "f"))
  {
    hide SimpleOf, Describe;
    assert FieldFault(api, "M", "f") == Some(NilMessage("M", "f"));
    assert ops[0] in Visible(ops) && "M" in NamedBy(ops[0]);
    assert Visible(ops) == {ops[0]} && NamedBy(ops[0]) == {"M"};
    assert Requested(ops) == {"M"};
    assert AliasEnds(api.errors, "M", 0);
    ResolveIs(api, "M", 0);
    assert OperationSound(api, ops[0]);
    SoundIsFaultless(api, ops[0]);
    if r.Ok? {
      RequestedIsHealthy(api, ops, s, r.value, "M");
    } else {
      FailedWithFault(api, ops, s, r.error);
      var m :| Reaches(api, "M", m) && Fault(api, m, r.error);
      OnlyReachesItself(api, "M", m);
    }
  }
}
