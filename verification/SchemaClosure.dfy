/** The traversal of gen/api.go that turns every model a route needs into a schema component: addSchema and
    describeModel call each other over the maps visited and schemas. */
module SchemaClosure {
  import opened Common
  import opened ApiModels

  /** The two maps, and which model claimed each name. */
  datatype Snapshot = Snapshot(visited: set<string>, schemas: map<string, Schema>, owner: map<string, string>)

  ghost predicate MentionsWithin(s: Schema, names: set<string>) {
    forall x | Mentions(s, x) :: x in names
  }

  /** Each claimed name belongs to one model; each finished schema describes its model, and what it refers to has at
      least been claimed. */
  ghost predicate Inv(api: Api, s: Snapshot)
    requires WellFormed(api)
  {
    && s.schemas.Keys <= s.visited == s.owner.Keys
    && (forall n | n in s.visited :: s.owner[n] in api.models && api.schemaName(s.owner[n]) == n)
    && (forall n | n in s.schemas :: Healthy(api, s.owner[n]) && s.schemas[n] == Describe(api, s.owner[n]))
    && (forall n | n in s.schemas :: MentionsWithin(s.schemas[n], s.visited))
  }

  /** Nothing claimed or finished is taken back, and every new claim is by a model that `from` reaches. */
  ghost predicate Grows(api: Api, s: Snapshot, s': Snapshot, from: string)
    requires WellFormed(api)
  {
    && Inv(api, s) && Inv(api, s')
    && s.visited <= s'.visited
    && (forall n | n in s.visited :: s'.owner[n] == s.owner[n])
    && (forall n | n in s.schemas :: n in s'.schemas && s'.schemas[n] == s.schemas[n])
    && (forall n | n in s'.visited - s.visited :: Reaches(api, from, s'.owner[n]))
  }

  /** The claims still without a schema. */
  ghost function Open(s: Snapshot): set<string> {
    s.visited - s.schemas.Keys
  }

  lemma GrowsOn(api: Api, s: Snapshot, s': Snapshot, s'': Snapshot, from: string)
    requires WellFormed(api) && Grows(api, s, s', from) && Grows(api, s', s'', from)
    ensures Grows(api, s, s'', from)
  {
    hide Healthy, MentionsWithin, Reaches;
  }

  lemma GrowsFromTarget(api: Api, s: Snapshot, s': Snapshot, m: string, t: string)
    requires WellFormed(api) && Edge(api, m, t) && Grows(api, s, s', t)
    ensures Grows(api, s, s', m)
  {
    hide Inv, Reaches, Edge;
    forall n | n in s'.visited - s.visited
      ensures n in s'.owner && Reaches(api, m, s'.owner[n])
    {
      OwnerKnown(api, s', n);
      ReachesOver(api, m, t, s'.owner[n]);
    }
    assert s'.visited == s'.owner.Keys by { OwnersAreClaims(api, s'); }
  }

  lemma OwnersAreClaims(api: Api, s: Snapshot)
    requires WellFormed(api) && Inv(api, s)
    ensures s.schemas.Keys <= s.visited == s.owner.Keys
  {
  }

  lemma OwnerKnown(api: Api, s: Snapshot, n: string)
    requires WellFormed(api) && Inv(api, s) && n in s.visited
    ensures n in s.owner
  {
  }

  /** Some model that `from` reaches has this very fault. */
  ghost predicate Blamed(api: Api, from: string, e: Error)
    requires WellFormed(api)
  {
    exists m :: Reaches(api, from, m) && Fault(api, m, e)
  }

  lemma BlamedOver(api: Api, m: string, t: string, e: Error)
    requires WellFormed(api) && Edge(api, m, t) && Blamed(api, t, e)
    ensures Blamed(api, m, e)
  {
    var x :| Reaches(api, t, x) && Fault(api, x, e);
    ReachesOver(api, m, t, x);
  }

  lemma BlamedSelf(api: Api, m: string, e: Error)
    requires WellFormed(api) && Fault(api, m, e)
    ensures Blamed(api, m, e)
  {
    ReachesItself(api, m);
  }

  /** A field that has its property: it is sound, and what it refers to has been claimed. */
  ghost predicate FieldDone(api: Api, m: string, n: string, visited: set<string>)
    requires WellFormed(api) && m in api.models && n in api.models[m].names
  {
    FieldFault(api, m, n).None? && (Target(api, m, n).Some? ==> api.schemaName(Target(api, m, n).value) in visited)
  }

  /** All the names there are to claim. */
  ghost function AllNames(api: Api): set<string> {
    set m | m in api.models :: api.schemaName(m)
  }

  ghost function Unclaimed(api: Api, s: Snapshot): nat {
    |AllNames(api) - s.visited|
  }

  lemma FewerUnclaimed(api: Api, s: Snapshot, s': Snapshot)
    requires s.visited <= s'.visited
    ensures Unclaimed(api, s') <= Unclaimed(api, s)
    ensures (exists n :: n in AllNames(api) && n in s'.visited && n !in s.visited) ==>
              Unclaimed(api, s') < Unclaimed(api, s)
  {
    var (a, b) := (AllNames(api) - s.visited, AllNames(api) - s'.visited);
    SubsetSize(b, a);
    if n :| n in AllNames(api) && n in s'.visited && n !in s.visited {
      SubsetSize(b, a - {n});
    }
  }

  lemma SubsetSize<T>(a: set<T>, b: set<T>)
    requires a <= b
    ensures |a| <= |b|
  {
    assert b == a + (b - a);
  }

  // ---------- Contracts of the traversal ----------

  /** The same claims are still open, and growth is by models that m reaches. */
  ghost predicate Progress(api: Api, s: Snapshot, s': Snapshot, m: string)
    requires WellFormed(api)
  {
    Grows(api, s, s', m) && Open(s') == Open(s)
  }

  lemma ProgressOn(api: Api, s: Snapshot, s': Snapshot, s'': Snapshot, m: string)
    requires WellFormed(api) && Progress(api, s, s', m) && Progress(api, s', s'', m)
    ensures Progress(api, s, s'', m)
  {
    GrowsOn(api, s, s', s'', m);
  }

  ghost predicate Added(api: Api, s: Snapshot, s': Snapshot, t: string, r: Result<string, Error>)
    requires WellFormed(api)
  {
    match r
    case Ok(name) => Progress(api, s, s', t) && name == api.schemaName(t) && name in s'.visited
    case Err(e) => Grows(api, s, s', t) && Blamed(api, t, e)
  }

  ghost predicate Described(api: Api, s: Snapshot, s': Snapshot, m: string, e: Option<Error>)
    requires WellFormed(api)
  {
    match e
    case None => Progress(api, s, s', m) && api.schemaName(m) in s'.visited
    case Some(error) => Grows(api, s, s', m) && Blamed(api, m, error)
  }

  ghost predicate FieldAdded(api: Api, s: Snapshot, s': Snapshot, m: string, n: string, r: Result<Simple, Error>)
    requires WellFormed(api) && m in api.models && n in api.models[m].names
  {
    match r
    case Ok(p) => Progress(api, s, s', m) && FieldDone(api, m, n, s'.visited) && p == SimpleOf(api, m, n)
    case Err(e) => Grows(api, s, s', m) && Blamed(api, m, e)
  }

  lemma NothingAdded(api: Api, s: Snapshot, m: string)
    requires WellFormed(api) && Inv(api, s)
    ensures Progress(api, s, s, m)
  {
    hide Healthy, MentionsWithin;
  }

  lemma FieldBlamed(api: Api, m: string, n: string)
    requires WellFormed(api) && m in api.models && api.models[m].isStruct && n in api.models[m].names
    requires FieldFault(api, m, n).Some?
    ensures Blamed(api, m, FieldFault(api, m, n).value)
  {
    BlamedSelf(api, m, FieldFault(api, m, n).value);
  }

  /** A field whose target has been added. */
  lemma TargetAdded(api: Api, s: Snapshot, s': Snapshot, m: string, n: string, t: string, r: Result<string, Error>)
    requires WellFormed(api) && m in api.models && n in api.models[m].names
    requires Target(api, m, n) == Some(t) && Added(api, s, s', t, r)
    ensures r.Ok? ==> Progress(api, s, s', m) && FieldDone(api, m, n, s'.visited) && r.value == api.schemaName(t)
    ensures r.Err? ==> Grows(api, s, s', m) && Blamed(api, m, r.error)
  {
    assert Edge(api, m, t);
    GrowsFromTarget(api, s, s', m, t);
    if r.Err? {
      BlamedOver(api, m, t, r.error);
    }
  }

  // ---------- Inside describeModel ----------

  /** m has claimed the name and has no schema yet. */
  ghost predicate Claimed(api: Api, s: Snapshot, schema: string, m: string) {
    schema in s.visited && schema !in s.schemas && schema in s.owner && s.owner[schema] == m
    && schema == api.schemaName(m)
  }

  lemma WithinMore(described: Schema, names: set<string>, names': set<string>)
    requires MentionsWithin(described, names) && names <= names'
    ensures MentionsWithin(described, names')
  {
  }

  lemma ClaimKeepsInv(api: Api, s: Snapshot, s': Snapshot, schema: string, m: string)
    requires WellFormed(api) && Inv(api, s) && m in api.models && schema == api.schemaName(m) && schema !in s.visited
    requires s' == Snapshot(s.visited + {schema}, s.schemas, s.owner[schema := m])
    ensures Inv(api, s')
  {
    hide Healthy, Describe, MentionsWithin;
    forall n | n in s'.schemas
      ensures MentionsWithin(s'.schemas[n], s'.visited)
    {
      WithinMore(s.schemas[n], s.visited, s'.visited);
    }
  }

  lemma ClaimGrows(api: Api, s: Snapshot, s': Snapshot, schema: string, m: string)
    requires WellFormed(api) && Inv(api, s) && m in api.models && schema == api.schemaName(m) && schema !in s.visited
    requires s' == Snapshot(s.visited + {schema}, s.schemas, s.owner[schema := m])
    ensures Grows(api, s, s', m) && Inv(api, s')
  {
    hide Inv, Reaches;
    ClaimKeepsInv(api, s, s', schema, m);
    OwnersAreClaims(api, s);
    ReachesItself(api, m);
  }

  lemma OneMoreOpen(s: Snapshot, s': Snapshot, schema: string)
    requires s.schemas.Keys <= s.visited && schema !in s.visited
    requires s'.visited == s.visited + {schema} && s'.schemas == s.schemas
    ensures Open(s') == Open(s) + {schema}
  {
  }

  lemma ClaimIsNew(api: Api, s: Snapshot, s': Snapshot, schema: string, m: string)
    requires WellFormed(api) && Inv(api, s) && m in api.models && schema == api.schemaName(m) && schema !in s.visited
    requires s' == Snapshot(s.visited + {schema}, s.schemas, s.owner[schema := m])
    ensures Grows(api, s, s', m) && Inv(api, s') && Claimed(api, s', schema, m)
    ensures Open(s') == Open(s) + {schema} && Unclaimed(api, s') < Unclaimed(api, s)
  {
    hide Inv, Reaches, Grows, Open, Unclaimed;
    ClaimGrows(api, s, s', schema, m);
    OwnersAreClaims(api, s);
    OneMoreOpen(s, s', schema);
    assert schema in AllNames(api);
    FewerUnclaimed(api, s, s');
  }

  lemma ClaimStays(api: Api, s: Snapshot, s': Snapshot, schema: string, m: string)
    requires WellFormed(api) && Claimed(api, s, schema, m) && Progress(api, s, s', m)
    ensures Claimed(api, s', schema, m) && Unclaimed(api, s') <= Unclaimed(api, s)
  {
    assert schema in Open(s');
    FewerUnclaimed(api, s, s');
  }

  ghost predicate AllDone(api: Api, m: string, visited: set<string>)
    requires WellFormed(api)
  {
    m in api.models && api.models[m].isStruct && forall n | n in api.models[m].names :: FieldDone(api, m, n, visited)
  }

  /** Once all the fields are done, what the description refers to has been claimed. */
  lemma DescribedWithin(api: Api, m: string, visited: set<string>)
    requires WellFormed(api) && AllDone(api, m, visited) && Healthy(api, m)
    ensures MentionsWithin(Describe(api, m), visited)
  {
    hide Describe, FieldFault, Target, Healthy, Mentions;
    forall x | Mentions(Describe(api, m), x)
      ensures x in visited
    {
      MentionsAreTargets(api, m, x);
      var t :| Edge(api, m, t) && api.schemaName(t) == x;
      var n :| n in api.models[m].names && Target(api, m, n) == Some(t);
      assert FieldDone(api, m, n, visited);
    }
  }

  /** Giving a model its schema once all its fields are done. */
  lemma SchemaSet(api: Api, s: Snapshot, s': Snapshot, schema: string, m: string, described: Schema)
    requires WellFormed(api) && Inv(api, s) && Claimed(api, s, schema, m) && AllDone(api, m, s.visited)
    requires Healthy(api, m) && described == Describe(api, m) && s' == s.(schemas := s.schemas[schema := described])
    ensures Grows(api, s, s', m) && Open(s') == Open(s) - {schema}
  {
    hide Describe, Healthy, MentionsWithin, AllDone, Reaches;
    DescribedWithin(api, m, s.visited);
  }

  /** What the first pass over the fields has after i of them: properties for the plain ones, groups of the others. */
  ghost predicate PlainDone(api: Api, m: string, i: nat, visited: set<string>, properties: map<string, Property>,
                            required: seq<string>, oneOfs: map<string, set<string>>)
    requires WellFormed(api) && m in api.models && i <= |api.models[m].names|
  {
    var message := api.models[m];
    && (forall j | 0 <= j < i ::
          var n := message.names[j];
          if !IsOneOfField(message, n) then n in properties
          else message.field[n].oneOf.value in oneOfs && n in oneOfs[message.field[n].oneOf.value])
    && (forall n | n in properties ::
          n in PlainNames(message) && FieldDone(api, m, n, visited) && properties[n] == One(SimpleOf(api, m, n)))
    && (forall o | o in oneOfs :: oneOfs[o] != {} && forall n | n in oneOfs[o] :: InOneOf(message, n, o))
    && required == RequiredUpTo(api, m, i)
  }

  lemma PlainMore(api: Api, m: string, i: nat, visited: set<string>, properties: map<string, Property>,
                  required: seq<string>, oneOfs: map<string, set<string>>, visited': set<string>,
                  property: Simple, isRequired: bool)
    requires WellFormed(api) && m in api.models && i < |api.models[m].names|
    requires PlainDone(api, m, i, visited, properties, required, oneOfs) && visited <= visited'
    requires var n := api.models[m].names[i];
             && !IsOneOfField(api.models[m], n) && FieldDone(api, m, n, visited') && property == SimpleOf(api, m, n)
             && n in ProtoFieldsOf(api, m) && isRequired == IsRequired(ProtoFieldsOf(api, m)[n])
    ensures var n := api.models[m].names[i];
            PlainDone(api, m, i + 1, visited', properties[n := One(property)],
                      if isRequired then required + [n] else required, oneOfs)
  {
    hide SimpleOf, FieldFault, Target;
  }

  lemma GroupMore(api: Api, m: string, i: nat, visited: set<string>, properties: map<string, Property>,
                  required: seq<string>, oneOfs: map<string, set<string>>)
    requires WellFormed(api) && m in api.models && i < |api.models[m].names|
    requires PlainDone(api, m, i, visited, properties, required, oneOfs)
             && IsOneOfField(api.models[m], api.models[m].names[i])
    ensures var n := api.models[m].names[i];
            var o := api.models[m].field[n].oneOf.value;
            var group := (if o in oneOfs then oneOfs[o] else {}) + {n};
            PlainDone(api, m, i + 1, visited, properties, required, oneOfs[o := group])
  {
    hide SimpleOf, FieldDone, InOneOf, RequiredUpTo;
    var message := api.models[m];
    var n := message.names[i];
    var o := message.field[n].oneOf.value;
    InOneOfIs(message, n, o);
    SameRequired(api, m, i);
  }

  lemma SameRequired(api: Api, m: string, i: nat)
    requires WellFormed(api) && m in api.models && i < |api.models[m].names|
    requires IsOneOfField(api.models[m], api.models[m].names[i])
    ensures RequiredUpTo(api, m, i + 1) == RequiredUpTo(api, m, i)
  {
  }

  /** The properties of some fields, each done. */
  ghost predicate VariantsDone(api: Api, m: string, names: set<string>, visited: set<string>,
                               variants: map<string, Simple>)
    requires WellFormed(api) && m in api.models
  {
    && variants.Keys == names
    && forall n | n in names ::
         n in api.models[m].names && FieldDone(api, m, n, visited) && variants[n] == SimpleOf(api, m, n)
  }

  lemma VariantsMore(api: Api, m: string, names: set<string>, visited: set<string>, variants: map<string, Simple>,
                     n: string, visited': set<string>, property: Simple)
    requires WellFormed(api) && m in api.models && n in api.models[m].names
    requires VariantsDone(api, m, names, visited, variants) && visited <= visited'
    requires FieldDone(api, m, n, visited') && property == SimpleOf(api, m, n)
    ensures VariantsDone(api, m, names + {n}, visited', variants[n := property])
  {
    hide SimpleOf, FieldFault, Target;
  }

  /** What the second pass has, with some oneofs still to do. */
  ghost predicate OneOfsDone(api: Api, m: string, visited: set<string>, plain: map<string, Property>,
                             required: seq<string>, oneOfs: map<string, set<string>>, properties: map<string, Property>,
                             todo: set<string>)
    requires WellFormed(api) && m in api.models
  {
    && PlainDone(api, m, |api.models[m].names|, visited, plain, required, oneOfs)
    && todo <= oneOfs.Keys && properties.Keys == plain.Keys + (oneOfs.Keys - todo)
    && (forall o | o in oneOfs.Keys - todo ::
          properties[o].OneOf? && VariantsDone(api, m, oneOfs[o], visited, properties[o].variants))
    && (forall k | k in plain :: properties[k] == plain[k])
  }

  lemma OneOfsStart(api: Api, m: string, visited: set<string>, plain: map<string, Property>, required: seq<string>,
                    oneOfs: map<string, set<string>>)
    requires WellFormed(api) && m in api.models
    requires PlainDone(api, m, |api.models[m].names|, visited, plain, required, oneOfs)
    ensures OneOfsDone(api, m, visited, plain, required, oneOfs, plain, oneOfs.Keys)
  {
    hide PlainDone;
  }

  lemma PlainStays(api: Api, m: string, visited: set<string>, plain: map<string, Property>, required: seq<string>,
                   oneOfs: map<string, set<string>>, visited': set<string>)
    requires WellFormed(api) && m in api.models && visited <= visited'
    requires PlainDone(api, m, |api.models[m].names|, visited, plain, required, oneOfs)
    ensures PlainDone(api, m, |api.models[m].names|, visited', plain, required, oneOfs)
    ensures plain.Keys !! oneOfs.Keys
  {
    hide SimpleOf, RequiredUpTo, FieldFault, Target, InOneOf;
    PlainApart(api, m, visited, plain, required, oneOfs);
  }

  /** A oneof is never named like a field. */
  lemma PlainApart(api: Api, m: string, visited: set<string>, plain: map<string, Property>, required: seq<string>,
                   oneOfs: map<string, set<string>>)
    requires WellFormed(api) && m in api.models
    requires PlainDone(api, m, |api.models[m].names|, visited, plain, required, oneOfs)
    ensures plain.Keys !! oneOfs.Keys
  {
    hide SimpleOf, RequiredUpTo, FieldDone;
    forall o | o in oneOfs
      ensures o !in plain
    {
      var n :| n in oneOfs[o];
    }
  }

  lemma VariantsStay(api: Api, m: string, names: set<string>, visited: set<string>, variants: map<string, Simple>,
                     visited': set<string>)
    requires WellFormed(api) && m in api.models && visited <= visited'
    requires VariantsDone(api, m, names, visited, variants)
    ensures VariantsDone(api, m, names, visited', variants)
  {
    hide SimpleOf, FieldFault, Target;
  }

  lemma OneOfsMore(api: Api, m: string, visited: set<string>, plain: map<string, Property>, required: seq<string>,
                   oneOfs: map<string, set<string>>, properties: map<string, Property>, todo: set<string>, o: string,
                   visited': set<string>, variants: map<string, Simple>)
    requires WellFormed(api) && m in api.models
    requires OneOfsDone(api, m, visited, plain, required, oneOfs, properties, todo) && o in todo && visited <= visited'
    requires VariantsDone(api, m, oneOfs[o], visited', variants)
    ensures OneOfsDone(api, m, visited', plain, required, oneOfs, properties[o := OneOf(variants)], todo - {o})
  {
    hide SimpleOf, FieldDone, RequiredUpTo, PlainDone, InOneOf, AliasesEnd;
    PlainStays(api, m, visited, plain, required, oneOfs, visited');
    forall o' | o' in oneOfs.Keys - (todo - {o}) && o' != o
      ensures VariantsDone(api, m, oneOfs[o'], visited', properties[o'].variants)
    {
      VariantsStay(api, m, oneOfs[o'], visited, properties[o'].variants, visited');
    }
  }

  lemma PlainIs(api: Api, m: string, i: nat, visited: set<string>, plain: map<string, Property>, required: seq<string>,
                oneOfs: map<string, set<string>>, k: string)
    requires WellFormed(api) && m in api.models && i <= |api.models[m].names| && k in plain
    requires PlainDone(api, m, i, visited, plain, required, oneOfs)
    ensures k in PlainNames(api.models[m]) && FieldDone(api, m, k, visited) && plain[k] == One(SimpleOf(api, m, k))
  {
    hide SimpleOf, FieldFault, Target, RequiredUpTo, InOneOf;
  }

  lemma GroupIs(api: Api, m: string, visited: set<string>, plain: map<string, Property>, required: seq<string>,
                oneOfs: map<string, set<string>>, o: string)
    requires WellFormed(api) && m in api.models && o in oneOfs
    requires PlainDone(api, m, |api.models[m].names|, visited, plain, required, oneOfs)
    ensures oneOfs[o] == GroupNames(api.models[m], o) && o in OneOfNames(api.models[m])
  {
    hide SimpleOf, FieldFault, Target, RequiredUpTo, InOneOf, FieldDone;
    var message := api.models[m];
    forall n | n in oneOfs[o]
      ensures n in GroupNames(message, o) && o in OneOfNames(message)
    {
      InOneOfIs(message, n, o);
    }
    forall n | n in GroupNames(message, o)
      ensures n in oneOfs[o]
    {
      InOneOfIs(message, n, o);
      var j :| 0 <= j < |message.names| && message.names[j] == n;
    }
  }

  lemma NameIsFiled(api: Api, m: string, visited: set<string>, plain: map<string, Property>, required: seq<string>,
                    oneOfs: map<string, set<string>>, n: string)
    requires WellFormed(api) && m in api.models && n in api.models[m].names
    requires PlainDone(api, m, |api.models[m].names|, visited, plain, required, oneOfs)
    ensures if !IsOneOfField(api.models[m], n) then n in plain
            else api.models[m].field[n].oneOf.value in oneOfs && n in oneOfs[api.models[m].field[n].oneOf.value]
  {
    hide SimpleOf, FieldFault, Target, RequiredUpTo, InOneOf, FieldDone;
    var j :| 0 <= j < |api.models[m].names| && api.models[m].names[j] == n;
  }

  lemma GroupsAreOneOfs(api: Api, m: string, visited: set<string>, plain: map<string, Property>, required: seq<string>,
                        oneOfs: map<string, set<string>>)
    requires WellFormed(api) && m in api.models
    requires PlainDone(api, m, |api.models[m].names|, visited, plain, required, oneOfs)
    ensures plain.Keys == PlainNames(api.models[m]) && oneOfs.Keys == OneOfNames(api.models[m])
    ensures |oneOfs| == |OneOfNames(api.models[m])|
  {
    hide PlainDone, FieldDone, SimpleOf, InOneOf;
    var message := api.models[m];
    forall n | n in message.names
      ensures if !IsOneOfField(message, n) then n in plain else message.field[n].oneOf.value in oneOfs
    {
      NameIsFiled(api, m, visited, plain, required, oneOfs, n);
    }
    forall n | n in plain
      ensures n in PlainNames(message)
    {
      PlainIs(api, m, |message.names|, visited, plain, required, oneOfs, n);
    }
    forall o | o in oneOfs
      ensures o in OneOfNames(message)
    {
      GroupIs(api, m, visited, plain, required, oneOfs, o);
    }
    assert |oneOfs| == |oneOfs.Keys|;
  }

  ghost function GroupNames(message: Message, o: string): set<string>
    requires Consistent(message)
  {
    set n | n in message.names && InOneOf(message, n, o)
  }

  lemma InOneOfIs(message: Message, n: string, o: string)
    requires Consistent(message)
    ensures InOneOf(message, n, o) <==>
              n in message.names && IsOneOfField(message, n) && message.field[n].oneOf.value == o
  {
  }

  lemma {:induction false} NoneRequired(api: Api, m: string, i: nat)
    requires WellFormed(api) && m in api.models && i <= |api.models[m].names| && PlainNames(api.models[m]) == {}
    ensures RequiredUpTo(api, m, i) == []
  {
    if i > 0 {
      NoneRequired(api, m, i - 1);
      assert api.models[m].names[i - 1] !in PlainNames(api.models[m]);
    }
  }

  /** A message that is nothing but one oneof. */
  lemma UnionDescribed(api: Api, m: string, visited: set<string>, visited': set<string>, plain: map<string, Property>,
                       required: seq<string>, oneOfs: map<string, set<string>>, o: string,
                       variants: map<string, Simple>)
    requires WellFormed(api) && m in api.models && api.models[m].isStruct
    requires PlainDone(api, m, |api.models[m].names|, visited, plain, required, oneOfs)
    requires |plain| == 0 && |oneOfs| == 1 && o in oneOfs
    requires VariantsDone(api, m, oneOfs[o], visited', variants)
    ensures AllDone(api, m, visited') && Healthy(api, m) && Describe(api, m) == Union(variants)
  {
    hide SimpleOf, FieldFault, Target, RequiredUpTo, PlainDone, InOneOf;
    GroupsAreOneOfs(api, m, visited, plain, required, oneOfs);
    var message := api.models[m];
    OnlyElement(oneOfs.Keys, o);
    forall n | n in message.names
      ensures n in oneOfs[o]
    {
      NameIsFiled(api, m, visited, plain, required, oneOfs, n);
    }
    assert forall n | n in message.names :: FieldDone(api, m, n, visited');
  }

  lemma OnlyElement<T>(a: set<T>, x: T)
    requires x in a && |a| == 1
    ensures a == {x}
  {
    if y :| y in a && y != x {
      SubsetSize({x, y}, a);
    }
  }

  lemma DonePasses(api: Api, m: string, visited: set<string>, plain: map<string, Property>, required: seq<string>,
                   oneOfs: map<string, set<string>>, properties: map<string, Property>)
    requires WellFormed(api) && m in api.models
    requires OneOfsDone(api, m, visited, plain, required, oneOfs, properties, {})
    ensures PlainDone(api, m, |api.models[m].names|, visited, plain, required, oneOfs)
    ensures required == RequiredUpTo(api, m, |api.models[m].names|) && properties.Keys == plain.Keys + oneOfs.Keys
  {
    hide FieldDone, VariantsDone, InOneOf, SimpleOf;
  }

  lemma FieldsDone(api: Api, m: string, visited: set<string>, plain: map<string, Property>, required: seq<string>,
                   oneOfs: map<string, set<string>>, properties: map<string, Property>)
    requires WellFormed(api) && m in api.models && api.models[m].isStruct
    requires OneOfsDone(api, m, visited, plain, required, oneOfs, properties, {})
    ensures AllDone(api, m, visited) && Healthy(api, m) && properties.Keys == plain.Keys + oneOfs.Keys
    ensures PlainDone(api, m, |api.models[m].names|, visited, plain, required, oneOfs)
    ensures required == RequiredUpTo(api, m, |api.models[m].names|)
  {
    DonePasses(api, m, visited, plain, required, oneOfs, properties);
    hide PlainDone, SimpleOf, RequiredUpTo, InOneOf;
    var message := api.models[m];
    forall n | n in message.names
      ensures FieldDone(api, m, n, visited)
    {
      NameIsFiled(api, m, visited, plain, required, oneOfs, n);
      if !IsOneOfField(message, n) {
        PlainIs(api, m, |message.names|, visited, plain, required, oneOfs, n);
      } else {
        var o := message.field[n].oneOf.value;
        assert o in oneOfs.Keys - {};
      }
    }
  }

  lemma VariantsAre(api: Api, m: string, o: string, visited: set<string>, variants: map<string, Simple>)
    requires WellFormed(api) && Healthy(api, m)
    requires VariantsDone(api, m, GroupNames(api.models[m], o), visited, variants)
    ensures variants == Variants(api, m, o)
  {
    hide SimpleOf, Target, InOneOf;
  }

  /** The property a description has under k. */
  ghost predicate PropertyRight(api: Api, m: string, properties: map<string, Property>, k: string)
    requires WellFormed(api) && Healthy(api, m)
  {
    k in properties
    && if k in OneOfNames(api.models[m]) then properties[k] == OneOf(Variants(api, m, k))
       else k in PlainNames(api.models[m]) && properties[k] == One(SimpleOf(api, m, k))
  }

  lemma PropertyIsRight(api: Api, m: string, visited: set<string>, plain: map<string, Property>, required: seq<string>,
                        oneOfs: map<string, set<string>>, properties: map<string, Property>, k: string)
    requires WellFormed(api) && Healthy(api, m) && k in properties
    requires OneOfsDone(api, m, visited, plain, required, oneOfs, properties, {})
    ensures PropertyRight(api, m, properties, k)
  {
    hide SimpleOf, RequiredUpTo, InOneOf, PlainDone, VariantsDone, Variants, PlainNames, OneOfNames, FieldDone;
    GroupsAreOneOfs(api, m, visited, plain, required, oneOfs);
    if k in oneOfs {
      assert k in oneOfs.Keys - {};
      GroupIs(api, m, visited, plain, required, oneOfs, k);
      VariantsAre(api, m, k, visited, properties[k].variants);
    } else {
      PlainIs(api, m, |api.models[m].names|, visited, plain, required, oneOfs, k);
    }
  }

  ghost predicate IsObject(api: Api, m: string)
    requires WellFormed(api) && m in api.models
  {
    PlainNames(api.models[m]) != {} || |OneOfNames(api.models[m])| != 1
  }

  lemma ObjectKeys(api: Api, m: string)
    requires WellFormed(api) && Healthy(api, m) && IsObject(api, m)
    ensures Describe(api, m).Object? && Describe(api, m).required == RequiredUpTo(api, m, |api.models[m].names|)
    ensures Describe(api, m).properties.Keys == PlainNames(api.models[m]) + OneOfNames(api.models[m])
  {
    hide SimpleOf, RequiredUpTo, Variants, PlainNames, OneOfNames;
  }

  lemma ObjectAt(api: Api, m: string, k: string)
    requires WellFormed(api) && Healthy(api, m) && IsObject(api, m)
    requires Describe(api, m).Object? && k in Describe(api, m).properties
    ensures PropertyRight(api, m, Describe(api, m).properties, k)
  {
    hide SimpleOf, RequiredUpTo, Variants;
  }

  lemma RightPropertiesDescribe(api: Api, m: string, properties: map<string, Property>, required: seq<string>)
    requires WellFormed(api) && Healthy(api, m) && required == RequiredUpTo(api, m, |api.models[m].names|)
    requires properties.Keys == PlainNames(api.models[m]) + OneOfNames(api.models[m])
    requires forall k | k in properties :: PropertyRight(api, m, properties, k)
    requires IsObject(api, m)
    ensures Describe(api, m) == Object(properties, required)
  {
    hide SimpleOf, RequiredUpTo, InOneOf, Variants, Healthy, OneOfNames, FieldFault, AliasesEnd, IsOneOfField,
      Describe, IsObject;
    ObjectKeys(api, m);
    forall k | k in properties
      ensures Describe(api, m).properties[k] == properties[k]
    {
      ObjectAt(api, m, k);
      assert PropertyRight(api, m, properties, k);
    }
  }

  /** Any other message, once no oneof is left to do. */
  lemma ObjectDescribed(api: Api, m: string, visited: set<string>, plain: map<string, Property>, required: seq<string>,
                        oneOfs: map<string, set<string>>, properties: map<string, Property>)
    requires WellFormed(api) && m in api.models && api.models[m].isStruct
    requires OneOfsDone(api, m, visited, plain, required, oneOfs, properties, {})
    requires !(|plain| == 0 && |required| == 0 && |oneOfs| == 1)
    ensures AllDone(api, m, visited) && Healthy(api, m) && Describe(api, m) == Object(properties, required)
  {
    hide SimpleOf, FieldFault, Target, RequiredUpTo, InOneOf, VariantsDone, Variants, PlainNames, OneOfNames,
      PropertyRight, Describe, PlainDone, OneOfsDone, Healthy, AllDone;
    var message := api.models[m];
    FieldsDone(api, m, visited, plain, required, oneOfs, properties);
    GroupsAreOneOfs(api, m, visited, plain, required, oneOfs);
    if PlainNames(message) == {} {
      NoneRequired(api, m, |message.names|);
      assert |plain.Keys| == |plain|;
    }
    forall k | k in properties
      ensures PropertyRight(api, m, properties, k)
    {
      PropertyIsRight(api, m, visited, plain, required, oneOfs, properties, k);
    }
    RightPropertiesDescribe(api, m, properties, required);
  }

  // ---------- The steps of describeModel ----------

  /** Ready to become an object schema. */
  ghost predicate Ready(api: Api, s: Snapshot, schema: string, m: string, properties: map<string, Property>,
                        required: seq<string>)
    requires WellFormed(api)
  {
    Claimed(api, s, schema, m) && AllDone(api, m, s.visited) && Healthy(api, m)
    && Describe(api, m) == Object(properties, required)
  }

  lemma ReadyIs(api: Api, s: Snapshot, schema: string, m: string, properties: map<string, Property>,
                required: seq<string>)
    requires WellFormed(api) && Ready(api, s, schema, m, properties, required)
    ensures Claimed(api, s, schema, m) && AllDone(api, m, s.visited) && Healthy(api, m)
    ensures Describe(api, m) == Object(properties, required)
  {
  }

  lemma BecomesReady(api: Api, s: Snapshot, schema: string, m: string, plain: map<string, Property>,
                     required: seq<string>, oneOfs: map<string, set<string>>, properties: map<string, Property>)
    requires WellFormed(api) && m in api.models && api.models[m].isStruct && Claimed(api, s, schema, m)
    requires OneOfsDone(api, m, s.visited, plain, required, oneOfs, properties, {})
    requires |plain| == 0 && |required| == 0 && |oneOfs| == 1 ==> oneOfs.Keys == {}
    ensures Ready(api, s, schema, m, properties, required) && schema !in s.schemas
  {
    hide Describe, OneOfsDone, Target;
    assert |oneOfs| == |oneOfs.Keys|;
    ObjectDescribed(api, m, s.visited, plain, required, oneOfs, properties);
  }

  lemma ClaimIsMet(api: Api, start: Snapshot, s: Snapshot, end: Snapshot, schema: string, m: string)
    requires WellFormed(api) && Grows(api, start, end, m) && schema == api.schemaName(m)
    requires schema !in start.visited && Open(s) == Open(start) + {schema}
    requires schema in end.schemas && Open(end) == Open(s) - {schema}
    ensures Progress(api, start, end, m) && schema in end.visited
  {
  }

  lemma NothingDone(api: Api, m: string, visited: set<string>)
    requires WellFormed(api) && m in api.models
    ensures PlainDone(api, m, 0, visited, map[], [], map[])
  {
  }

  lemma NoVariants(api: Api, m: string, visited: set<string>)
    requires WellFormed(api) && m in api.models
    ensures VariantsDone(api, m, {}, visited, map[])
  {
  }

  lemma GroupIsNamed(api: Api, m: string, visited: set<string>, plain: map<string, Property>, required: seq<string>,
                     oneOfs: map<string, set<string>>, properties: map<string, Property>, todo: set<string>, o: string)
    requires WellFormed(api) && m in api.models && o in todo
    requires OneOfsDone(api, m, visited, plain, required, oneOfs, properties, todo)
    ensures o in oneOfs && forall n | n in oneOfs[o] :: n in api.models[m].names
  {
    hide PlainDone, VariantsDone, InOneOf;
    GroupIs(api, m, visited, plain, required, oneOfs, o);
  }

  /** The test made for each oneof comes out as it would have before any of them. */
  lemma StillUnion(api: Api, m: string, visited: set<string>, plain: map<string, Property>, required: seq<string>,
                   oneOfs: map<string, set<string>>, properties: map<string, Property>, todo: set<string>)
    requires WellFormed(api) && m in api.models
    requires OneOfsDone(api, m, visited, plain, required, oneOfs, properties, todo)
    ensures PlainDone(api, m, |api.models[m].names|, visited, plain, required, oneOfs)
    ensures |properties| == 0 ==> |plain| == 0
    ensures |plain| == 0 && todo == oneOfs.Keys ==> |properties| == 0
  {
    hide PlainDone, VariantsDone;
    assert |properties| == |properties.Keys| && |plain| == |plain.Keys|;
  }

  class Generator {
    const api: Api
    var visited: set<string>
    var schemas: map<string, Schema>
    ghost var owner: map<string, string>

    ghost function Now(): Snapshot
      reads this
    {
      Snapshot(visited, schemas, owner)
    }

    constructor (api: Api)
      ensures this.api == api && Now() == Snapshot({}, map[], map[])
    {
      this.api, visited, schemas, owner := api, {}, map[], map[];
    }

    method AddSchema(name: string, ghost steps: nat) returns (r: Result<string, Error>)
      requires WellFormed(api) && AliasEnds(api.errors, name, steps) && Inv(api, Now())
      modifies this
      ensures Added(api, old(Now()), Now(), Resolve(api, name), r)
      decreases Unclaimed(api, Now()), 2, steps
    {
      ResolveIs(api, name, steps);
      ghost var m := Resolve(api, name);
      if name in api.errors {
        ResolveIs(api, api.errors[name], steps - 1);
        r := AddSchema(api.errors[name], steps - 1);
        return;
      }
      var schema := api.schemaName(name);
      if schema in schemas {
        NothingAdded(api, Now(), m);
        return Ok(schema);
      }
      if name !in api.models {
        NothingAdded(api, Now(), m);
        BlamedSelf(api, m, NoSchemaFound(name));
        return Err(NoSchemaFound(name));
      }
      var e := DescribeModel(schema, name);
      return if e.Some? then Err(e.value) else Ok(schema);
    }

    method FieldToProperty(m: string, n: string) returns (r: Result<Simple, Error>, isRequired: bool)
      requires WellFormed(api) && Inv(api, Now())
      requires m in api.models && api.models[m].isStruct && n in api.models[m].names
      modifies this
      ensures FieldAdded(api, old(Now()), Now(), m, n, r)
      ensures r.Ok? ==> n in ProtoFieldsOf(api, m) && isRequired == IsRequired(ProtoFieldsOf(api, m)[n])
      decreases Unclaimed(api, Now()), 3, 0
    {
      hide Blamed, Progress, Grows, Inv, Added;
      ghost var s := Now();
      NothingAdded(api, s, m);
      isRequired := false;
      var protoFields := ProtoFieldsOf(api, m);
      if n !in protoFields {
        ProgressGrows(api, s, s, m);
        FieldBlamed(api, m, n);
        return Err(FieldNotFound(m, n)), false;
      }
      var protoField := protoFields[n];
      var property;
      match api.models[m].field[n].kind {
        case MessageKind(message, mapValue) =>
          if protoField.isMap && mapValue.None? {
            ProgressGrows(api, s, s, m);
            FieldBlamed(api, m, n);
            return Err(NilMessage(m, n)), false;
          }
          var name := if protoField.isMap then mapValue.value else message;
          assert HasEnd(api.errors, name);
          ghost var steps: nat :| AliasEnds(api.errors, name, steps);
          var schema := AddSchema(name, steps);
          TargetAdded(api, s, Now(), m, n, Resolve(api, name), schema);
          if schema.Err? {
            return Err(schema.error), false;
          }
          property := if protoField.isMap then MapOf(schema.value) else Ref(schema.value);
        case StringKind => property := StringProperty;
        case BoolKind => property := BooleanProperty;
        case IntegerKind => property := IntegerProperty;
        case FloatKind => property := NumberProperty;
        case EnumKind(enum) =>
          if enum !in api.enums {
            ProgressGrows(api, s, s, m);
            FieldBlamed(api, m, n);
            return Err(UnknownEnum(enum)), false;
          }
          property := EnumProperty(enum);
        case OtherKind =>
          ProgressGrows(api, s, s, m);
          FieldBlamed(api, m, n);
          return Err(KindNotSupported(m, n)), false;
      }
      isRequired := IsRequired(protoField);
      if protoField.isRepeated {
        property := ArrayOf(property);
      }
      return Ok(property), isRequired;
    }

    lemma ProgressGrows(api: Api, s: Snapshot, s': Snapshot, m: string)
      requires WellFormed(api) && Progress(api, s, s', m)
      ensures Grows(api, s, s', m) && Inv(api, s') && s.visited <= s'.visited && Open(s') == Open(s)
    {
    }

    // ----- describeModel -----

    method DescribeModel(schema: string, m: string) returns (e: Option<Error>)
      requires WellFormed(api) && Inv(api, Now()) && m in api.models && schema == api.schemaName(m)
      modifies this
      ensures Described(api, old(Now()), Now(), m, e)
      decreases Unclaimed(api, Now()), 1, 0
    {
      hide Inv, Grows, Blamed, Claimed, PlainDone, Ready, Unclaimed, Open;
      ghost var start := Now();
      NothingAdded(api, start, m);
      ProgressGrows(api, start, start, m);
      if schema in visited {
        return None;
      }
      if !api.models[m].isStruct {
        BlamedSelf(api, m, NotAStruct(m));
        return Some(NotAStruct(m));
      }
      visited, owner := visited + {schema}, owner[schema := m];
      ghost var s := Now();
      ClaimIsNew(api, start, s, schema, m);
      var properties, required, oneOfs;
      properties, required, oneOfs, e := DescribePlain(m);
      ghost var s' := Now();
      GrowsOn(api, start, s, s', m);
      if e.Some? {
        return;
      }
      ProgressGrows(api, s, s', m);
      ClaimStays(api, s, s', schema, m);
      properties, e := DescribeOneOfs(schema, m, properties, required, oneOfs);
      ghost var s'' := Now();
      GrowsOn(api, start, s', s'', m);
      if e.Some? {
        return;
      }
      if schema !in schemas {
        schemas := schemas[schema := Object(properties, required)];
        ProgressGrows(api, s', s'', m);
        ReadyIs(api, s'', schema, m, properties, required);
        SchemaSet(api, s'', Now(), schema, m, Object(properties, required));
        GrowsOn(api, start, s'', Now(), m);
      }
      ClaimIsMet(api, start, s, Now(), schema, m);
    }

    /** The first pass: properties for the plain fields, and the fields of each oneof. */
    method DescribePlain(m: string)
      returns (properties: map<string, Property>, required: seq<string>, oneOfs: map<string, set<string>>,
               e: Option<Error>)
      requires WellFormed(api) && Inv(api, Now()) && m in api.models && api.models[m].isStruct
      modifies this
      ensures Grows(api, old(Now()), Now(), m)
      ensures match e
              case None => Progress(api, old(Now()), Now(), m)
                           && PlainDone(api, m, |api.models[m].names|, visited, properties, required, oneOfs)
              case Some(error) => Blamed(api, m, error)
      decreases Unclaimed(api, Now()), 5, 0
    {
      hide Inv, Grows, Blamed, PlainDone, FieldDone, Progress, Unclaimed;
      var message := api.models[m];
      properties, required, oneOfs, e := map[], [], map[], None;
      ghost var start := Now();
      NothingAdded(api, start, m);
      NothingDone(api, m, visited);
      for i := 0 to |message.names|
        invariant Progress(api, start, Now(), m)
        invariant PlainDone(api, m, i, visited, properties, required, oneOfs)
        invariant e.None?
      {
        ghost var s := Now();
        ProgressGrows(api, start, s, m);
        FewerUnclaimed(api, start, s);
        var n := message.names[i];
        if IsOneOfField(message, n) {
          GroupMore(api, m, i, visited, properties, required, oneOfs);
          var o := message.field[n].oneOf.value;
          ghost var before := oneOfs;
          if o !in oneOfs {
            oneOfs := oneOfs[o := {}];
          }
          oneOfs := oneOfs[o := oneOfs[o] + {n}];
          assert oneOfs == before[o := (if o in before then before[o] else {}) + {n}];
          continue;
        }
        var property, isRequired := FieldToProperty(m, n);
        if property.Err? {
          GrowsOn(api, start, s, Now(), m);
          e := Some(property.error);
          return;
        }
        ProgressGrows(api, s, Now(), m);
        ProgressOn(api, start, s, Now(), m);
        PlainMore(api, m, i, s.visited, properties, required, oneOfs, visited, property.value, isRequired);
        properties := properties[n := One(property.value)];
        if isRequired {
          required := required + [n];
        }
      }
      ProgressGrows(api, start, Now(), m);
    }

    /** The variants of one oneof, in whatever order the map of its fields is walked. */
    method DescribeVariants(m: string, group: set<string>) returns (variants: map<string, Simple>, e: Option<Error>)
      requires WellFormed(api) && Inv(api, Now()) && m in api.models && api.models[m].isStruct
      requires forall n | n in group :: n in api.models[m].names
      modifies this
      ensures Grows(api, old(Now()), Now(), m)
      ensures match e
              case None => Progress(api, old(Now()), Now(), m) && VariantsDone(api, m, group, visited, variants)
              case Some(error) => Blamed(api, m, error)
      decreases Unclaimed(api, Now()), 4, 0
    {
      hide Inv, Grows, Blamed, VariantsDone, FieldDone, Progress, Unclaimed;
      variants, e := map[], None;
      ghost var start := Now();
      NothingAdded(api, start, m);
      NoVariants(api, m, visited);
      var todo := group;
      assert group - todo == {};
      while todo != {}
        invariant todo <= group && e.None?
        invariant Progress(api, start, Now(), m)
        invariant VariantsDone(api, m, group - todo, visited, variants)
        decreases todo
      {
        ghost var s := Now();
        ProgressGrows(api, start, s, m);
        FewerUnclaimed(api, start, s);
        var n :| n in todo;
        var property, isRequired := FieldToProperty(m, n);
        if property.Err? {
          GrowsOn(api, start, s, Now(), m);
          e := Some(property.error);
          return;
        }
        ProgressGrows(api, s, Now(), m);
        ProgressOn(api, start, s, Now(), m);
        VariantsMore(api, m, group - todo, s.visited, variants, n, visited, property.value);
        variants := variants[n := property.value];
        assert group - todo + {n} == group - (todo - {n});
        todo := todo - {n};
      }
      ProgressGrows(api, start, Now(), m);
      assert group - {} == group;
    }

    /** The oneofs of a message: the whole schema when it has nothing else and only one of them, properties
        otherwise. */
    method DescribeOneOfs(schema: string, m: string, plain: map<string, Property>, required: seq<string>,
                          oneOfs: map<string, set<string>>)
      returns (properties: map<string, Property>, e: Option<Error>)
      requires WellFormed(api) && Inv(api, Now()) && m in api.models && api.models[m].isStruct
               && Claimed(api, Now(), schema, m)
      requires PlainDone(api, m, |api.models[m].names|, visited, plain, required, oneOfs)
      modifies this
      ensures Grows(api, old(Now()), Now(), m)
      ensures match e
              case None => if schema in schemas then Open(Now()) == Open(old(Now())) - {schema}
                           else Progress(api, old(Now()), Now(), m)
                                && Ready(api, Now(), schema, m, properties, required)
              case Some(error) => Blamed(api, m, error)
      decreases Unclaimed(api, Now()), 5, 0
    {
      hide Inv, Grows, Blamed, VariantsDone, PlainDone, OneOfsDone, FieldDone, Progress, Claimed, Unclaimed, Ready,
        Open;
      properties, e := plain, None;
      ghost var start := Now();
      ghost var isUnion := |plain| == 0 && |required| == 0 && |oneOfs| == 1;
      NothingAdded(api, start, m);
      OneOfsStart(api, m, visited, plain, required, oneOfs);
      var todo := oneOfs.Keys;
      while todo != {}
        invariant todo <= oneOfs.Keys && e.None?
        invariant Progress(api, start, Now(), m) && Claimed(api, Now(), schema, m)
        invariant OneOfsDone(api, m, visited, plain, required, oneOfs, properties, todo)
        invariant isUnion ==> todo == oneOfs.Keys
        decreases todo
      {
        ghost var s := Now();
        ProgressGrows(api, start, s, m);
        FewerUnclaimed(api, start, s);
        var o :| o in todo;
        GroupIsNamed(api, m, visited, plain, required, oneOfs, properties, todo, o);
        var variants;
        variants, e := DescribeVariants(m, oneOfs[o]);
        GrowsOn(api, start, s, Now(), m);
        if e.Some? {
          return;
        }
        ghost var s' := Now();
        ProgressGrows(api, s, s', m);
        ProgressOn(api, start, s, s', m);
        ClaimStays(api, s, s', schema, m);
        StillUnion(api, m, s.visited, plain, required, oneOfs, properties, todo);
        if |properties| == 0 && |required| == 0 && |oneOfs| == 1 {
          UnionDescribed(api, m, s.visited, visited, plain, required, oneOfs, o, variants);
          schemas := schemas[schema := Union(variants)];
          SchemaSet(api, s', Now(), schema, m, Union(variants));
          GrowsOn(api, start, s', Now(), m);
          return;
        }
        OneOfsMore(api, m, s.visited, plain, required, oneOfs, properties, todo, o, visited, variants);
        properties := properties[o := OneOf(variants)];
        todo := todo - {o};
      }
      ProgressGrows(api, start, Now(), m);
      BecomesReady(api, Now(), schema, m, plain, required, oneOfs, properties);
    }
  }
}
