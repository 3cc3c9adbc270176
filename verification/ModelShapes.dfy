/** What a model's schema holds, said from its descriptor and the flags of its proto file alone (gen/api.go). */
module ModelShapes {
  import opened Common
  import opened ApiModels

  /** Each name but the last is an alias of the next, and the last is none. */
  predicate AliasChain(errors: map<string, string>, chain: seq<string>) {
    && chain != [] && chain[|chain| - 1] !in errors
    && forall i | 0 <= i < |chain| - 1 :: chain[i] in errors && errors[chain[i]] == chain[i + 1]
  }

  lemma {:induction false} ChainIsFollowed(errors: map<string, string>, chain: seq<string>)
    requires AliasChain(errors, chain)
    ensures Follow(errors, chain[0], |chain| - 1) == chain[|chain| - 1]
    decreases |chain|
  {
    if |chain| > 1 {
      assert errors[chain[0]] == chain[0 + 1];
      forall i | 0 <= i < |chain[1..]| - 1
        ensures chain[1..][i] in errors && errors[chain[1..][i]] == chain[1..][i + 1]
      {
        assert chain[1..][i] == chain[i + 1];
      }
      ChainIsFollowed(errors, chain[1..]);
    }
  }

  /** A name stands for the model at the end of its chain of aliases. */
  lemma ChainEndsAtModel(api: Api, chain: seq<string>)
    requires AliasChain(api.errors, chain)
    ensures Resolve(api, chain[0]) == chain[|chain| - 1]
  {
    ChainIsFollowed(api.errors, chain);
    assert AliasEnds(api.errors, chain[0], |chain| - 1);
    ResolveIs(api, chain[0], |chain| - 1);
  }

  function Single(p: Simple): Simple {
    if p.ArrayOf? then p.of else p
  }

  /** Which property a field gets: by its kind, one per scalar kind; an enum by its name; a message by a reference, or
      by a map to one; and a list of it when it is repeated. */
  lemma FieldShape(api: Api, m: string, n: string)
    requires WellFormed(api) && Healthy(api, m) && n in api.models[m].names
    ensures m in api.protoFields && n in api.protoFields[m]
    ensures var (kind, p, flags) := (api.models[m].field[n].kind, SimpleOf(api, m, n), api.protoFields[m][n]);
            var one := Single(p);
            && !one.ArrayOf? && (p.ArrayOf? <==> flags.isRepeated)
            && (one.StringProperty? <==> kind.StringKind?) && (one.BooleanProperty? <==> kind.BoolKind?)
            && (one.IntegerProperty? <==> kind.IntegerKind?) && (one.NumberProperty? <==> kind.FloatKind?)
            && (one.EnumProperty? <==> kind.EnumKind?) && (one.EnumProperty? ==> one.enum == kind.enum)
            && (one.Ref? <==> kind.MessageKind? && !flags.isMap) && (one.MapOf? <==> kind.MessageKind? && flags.isMap)
  {
    assert FieldFault(api, m, n).None?;
  }

  /** Which schema a reference or a map names: that of the model its field's message stands for. */
  lemma ReferenceShape(api: Api, m: string, n: string, chain: seq<string>)
    requires WellFormed(api) && Healthy(api, m) && n in api.models[m].names && AliasChain(api.errors, chain)
    ensures var (kind, one) := (api.models[m].field[n].kind, Single(SimpleOf(api, m, n)));
            && (one.Ref? && chain[0] == kind.message ==> one.schema == api.schemaName(chain[|chain| - 1]))
            && (one.MapOf? && kind.mapValue == Some(chain[0]) ==> one.schema == api.schemaName(chain[|chain| - 1]))
  {
    ChainEndsAtModel(api, chain);
    assert FieldFault(api, m, n).None?;
  }

  /** The field has no oneof, or is the only one of it, as proto3's optional fields are. */
  ghost predicate Alone(message: Message, n: string)
    requires Consistent(message) && n in message.names
  {
    message.field[n].oneOf.None?
    || forall x | x in message.names && x != n :: message.field[x].oneOf != message.field[n].oneOf
  }

  /** Two different fields belong to the oneof. */
  ghost predicate Shared(message: Message, o: string)
    requires Consistent(message)
  {
    exists a, b | a in message.names && b in message.names ::
      a != b && message.field[a].oneOf == message.field[b].oneOf == Some(o)
  }

  lemma PlainIsAlone(message: Message, n: string)
    requires Consistent(message) && n in message.names
    ensures n in PlainNames(message) <==> Alone(message, n)
  {
  }

  lemma OneOfIsShared(message: Message, o: string)
    requires Consistent(message)
    ensures o in OneOfNames(message) <==> Shared(message, o)
  {
    if a, b :| a in message.names && b in message.names && a != b
               && message.field[a].oneOf == message.field[b].oneOf == Some(o) {
      assert IsOneOfField(message, a);
    }
  }

  ghost predicate AllIn(message: Message, o: string)
    requires Consistent(message)
  {
    forall n | n in message.names :: message.field[n].oneOf == Some(o)
  }

  lemma OnlyOneOf(message: Message)
    requires Consistent(message)
    ensures PlainNames(message) == {} && |OneOfNames(message)| == 1 <==>
              exists o :: Shared(message, o) && AllIn(message, o)
  {
    hide InOneOf, Shared;
    var (plain, oneOfs) := (PlainNames(message), OneOfNames(message));
    if plain == {} && |oneOfs| == 1 {
      var o :| o in oneOfs;
      assert |oneOfs - {o}| == 0;
      OneOfIsShared(message, o);
      forall n | n in message.names
        ensures message.field[n].oneOf == Some(o)
      {
        assert n !in plain;
        assert message.field[n].oneOf.value in oneOfs;
      }
    }
    if o :| Shared(message, o) && AllIn(message, o) {
      OneOfIsShared(message, o);
      SharedByAll(message, o);
      assert oneOfs == {o};
    }
  }

  /** A message is a union at the top exactly when it has two fields and all its fields belong to one oneof. */
  lemma UnionShape(api: Api, m: string)
    requires WellFormed(api) && Healthy(api, m)
    ensures Describe(api, m).Union? <==> exists o :: Shared(api.models[m], o) && AllIn(api.models[m], o)
  {
    hide SimpleOf, FieldFault, RequiredUpTo, Variants, AliasesEnd, PlainNames, OneOfNames, Shared, AllIn;
    OnlyOneOf(api.models[m]);
  }

  /** A union has one variant for each field. */
  lemma VariantsShape(api: Api, m: string)
    requires WellFormed(api) && Healthy(api, m) && Describe(api, m).Union?
    ensures var variants := Describe(api, m).variants;
            && (forall n :: n in variants <==> n in api.models[m].names)
            && (forall n | n in variants :: variants[n] == SimpleOf(api, m, n))
  {
  }

  /** An object has a property for each field that stands alone, and one for each oneof of several fields, which holds
      those fields. */
  lemma ObjectShape(api: Api, m: string, k: string)
    requires WellFormed(api) && Healthy(api, m) && Describe(api, m).Object?
    ensures var (message, properties) := (api.models[m], Describe(api, m).properties);
            && (k in properties <==> (k in message.names && Alone(message, k)) || Shared(message, k))
            && (k in properties && properties[k].One? <==> k in message.names && Alone(message, k))
            && (k in properties && properties[k].One? ==> properties[k].simple == SimpleOf(api, m, k))
            && (k in properties && properties[k].OneOf? ==> forall n ::
                  n in properties[k].variants <==> n in message.names && message.field[n].oneOf == Some(k))
            && (k in properties && properties[k].OneOf? ==> forall n | n in properties[k].variants ::
                  properties[k].variants[n] == SimpleOf(api, m, n))
  {
    hide SimpleOf, FieldFault, RequiredUpTo, AliasesEnd, Shared;
    var message := api.models[m];
    OneOfIsShared(message, k);
    if k in message.names {
      PlainIsAlone(message, k);
      assert k !in OneOfNames(message);
    }
    if k in OneOfNames(message) {
      SharedByAll(message, k);
    }
  }

  lemma SharedByAll(message: Message, o: string)
    requires Consistent(message) && o in OneOfNames(message)
    ensures forall n :: InOneOf(message, n, o) <==> n in message.names && message.field[n].oneOf == Some(o)
  {
    OneOfIsShared(message, o);
  }

  /** The source's three flags: only an optional field that is not repeated and not marked as required may be
      missing. */
  ghost predicate MayBeMissing(api: Api, m: string, n: string)
    requires m in api.protoFields && n in api.protoFields[m]
  {
    var flags := api.protoFields[m][n];
    flags.isOptional && !flags.isRepeated && !flags.isRequired
  }

  /** The places of the fields that an object requires. */
  ghost predicate RequiredAt(api: Api, m: string, i: nat)
    requires WellFormed(api) && m in api.models && i < |api.models[m].names|
  {
    var n := api.models[m].names[i];
    Alone(api.models[m], n) && m in api.protoFields && n in api.protoFields[m] && !MayBeMissing(api, m, n)
  }

  /** The items at the given places, in order. */
  ghost predicate TakenFrom(items: seq<string>, at: seq<nat>, taken: seq<string>) {
    && |at| == |taken|
    && (forall k | 0 <= k < |at| :: at[k] < |items| && items[at[k]] == taken[k])
    && (forall j, k | 0 <= j < k < |at| :: at[j] < at[k])
  }

  lemma TakeOneMore(items: seq<string>, at: seq<nat>, taken: seq<string>, i: nat)
    requires TakenFrom(items, at, taken) && i < |items| && forall k: nat | k in at :: k < i
    ensures TakenFrom(items, at + [i], taken + [items[i]])
  {
    assert forall k | 0 <= k < |at| :: at[k] in at;
  }

  lemma {:induction false} RequiredPlaces(api: Api, m: string, i: nat) returns (at: seq<nat>)
    requires WellFormed(api) && m in api.models && i <= |api.models[m].names|
    ensures TakenFrom(api.models[m].names, at, RequiredUpTo(api, m, i))
    ensures forall k: nat :: k in at <==> k < i && RequiredAt(api, m, k)
  {
    hide AliasesEnd, Alone;
    if i == 0 {
      return [];
    }
    at := RequiredPlaces(api, m, i - 1);
    var n := api.models[m].names[i - 1];
    PlainIsAlone(api.models[m], n);
    if RequiredAt(api, m, i - 1) {
      TakeOneMore(api.models[m].names, at, RequiredUpTo(api, m, i - 1), i - 1);
      at := at + [i - 1];
    }
  }

  /** What an object requires: the fields that stand alone and may not be missing, in the order of the fields. */
  lemma RequiredShape(api: Api, m: string) returns (at: seq<nat>)
    requires WellFormed(api) && Healthy(api, m) && Describe(api, m).Object?
    ensures TakenFrom(api.models[m].names, at, Describe(api, m).required)
    ensures forall k: nat :: k in at <==> k < |api.models[m].names| && RequiredAt(api, m, k)
    ensures forall n :: n in Describe(api, m).required <==>
              && n in api.models[m].names && Alone(api.models[m], n) && m in api.protoFields && n in api.protoFields[m]
              && !MayBeMissing(api, m, n)
  {
    hide AliasesEnd, Alone, MayBeMissing, FieldFault, SimpleOf, Variants;
    at := RequiredPlaces(api, m, |api.models[m].names|);
    var required := Describe(api, m).required;
    forall n
      ensures n in required <==>
                && n in api.models[m].names && Alone(api.models[m], n)
                && m in api.protoFields && n in api.protoFields[m] && !MayBeMissing(api, m, n)
    {
      if n in required {
        var k :| 0 <= k < |required| && required[k] == n;
        assert at[k] in at && RequiredAt(api, m, at[k]);
      }
      if i :| 0 <= i < |api.models[m].names| && api.models[m].names[i] == n && RequiredAt(api, m, i) {
        var k :| 0 <= k < |at| && at[k] == i;
      }
    }
  }
}
