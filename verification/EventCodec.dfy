/**
 * The JSON form of users, events and retryable payloads, as written to the failed-event file.
 *
 * Encoding and decoding are methods that assign fields step by step; the functions beside them
 * give the whole document, and the lemmas relate the two directions.
 */
module EventCodec {
  import opened Wrappers
  import opened Json
  import opened UserKeys

  datatype Event = Event(
    name: string,
    time: int,
    user: User,
    stringValue: Option<string>,
    doubleValue: Option<real>,
    metadata: Option<map<string, Json>>,
    secondaryExposures: Option<seq<StringMap>>)

  datatype Payload = Payload(attempts: int32, events: seq<Event>)

  // ---- users ----

  function Text(o: Option<string>): Option<Json> {
    if o.Some? then Some(JString(o.value)) else None
  }

  function TextMap(o: Option<StringMap>): Option<Json> {
    if o.Some? then Some(FromStringMap(o.value)) else None
  }

  function EncodeEnvironment(e: Environment): Json {
    if e.tier.Some? then JObject(map["tier" := JString(e.tier.value)]) else JNull
  }

  type Field = (string, Option<Json>)

  /** The members of a user document, in the order they are assigned; absent ones are skipped. */
  function UserFields(u: User): seq<Field> {
    [("customIDs", if u.customIds == map[] then None else Some(FromStringMap(u.customIds))),
     ("userID", Text(u.userId)), ("email", Text(u.email)), ("ip", Text(u.ip)),
     ("userAgent", Text(u.userAgent)), ("country", Text(u.country)), ("locale", Text(u.locale)),
     ("appVersion", Text(u.appVersion)), ("custom", TextMap(u.custom)),
     ("privateAttributes", TextMap(u.privateAttributes)),
     ("statsigEnvironment",
      if u.environment.Some? then Some(EncodeEnvironment(u.environment.value)) else None)]
  }

  /** A null document to which the present fields are added from left to right. */
  function Assemble(fields: seq<Field>): (j: Json)
    ensures j.JNull? || j.JObject?
  {
    if fields == [] then JNull
    else
      var before, last := Assemble(fields[..|fields| - 1]), fields[|fields| - 1];
      if last.1.Some? then Put(before, last.0, last.1.value) else before
  }

  ghost predicate DistinctKeys(fields: seq<Field>) {
    forall i, j :: 0 <= i < j < |fields| ==> fields[i].0 != fields[j].0
  }

  /** The assembled document holds exactly the present fields. */
  lemma {:induction false} AssembleLookup(fields: seq<Field>, i: nat)
    requires DistinctKeys(fields) && i < |fields|
    ensures Contains(Assemble(fields), fields[i].0) <==> fields[i].1.Some?
    ensures fields[i].1.Some? ==> Assemble(fields).fields[fields[i].0] == fields[i].1.value
  {
    var front := fields[..|fields| - 1];
    if i < |front| {
      assert front[i] == fields[i] && fields[i].0 != fields[|fields| - 1].0;
      AssembleLookup(front, i);
    } else {
      AssembleOmits(front, fields[i].0);
    }
  }

  lemma {:induction false} AssembleOmits(fields: seq<Field>, key: string)
    requires forall f :: f in fields ==> f.0 != key
    ensures !Contains(Assemble(fields), key)
  {
    if fields != [] {
      assert fields[|fields| - 1] in fields;
      AssembleOmits(fields[..|fields| - 1], key);
    }
  }

  lemma {:induction false} AssembleNull(fields: seq<Field>)
    ensures Assemble(fields).JNull? <==> forall f :: f in fields ==> f.1.None?
  {
    if fields != [] {
      var front := fields[..|fields| - 1];
      assert fields == front + [fields[|fields| - 1]];
      AssembleNull(front);
      assert fields[|fields| - 1] in fields;
    }
  }

  lemma UserKeysDistinct(u: User)
    ensures DistinctKeys(UserFields(u))
  {
    var fields := UserFields(u);
    forall i, j | 0 <= i < j < |fields| ensures fields[i].0 != fields[j].0 {
      assert |fields| == 11;
    }
  }

  method UserToJson(u: User) returns (j: Json)
    ensures j == Assemble(UserFields(u))
  {
    var fields := UserFields(u);
    j := JNull;
    for i := 0 to |fields|
      invariant j == Assemble(fields[..i])
    {
      assert fields[..i + 1][..i] == fields[..i];
      if fields[i].1.Some? {
        j := Put(j, fields[i].0, fields[i].1.value);
      }
    }
    assert fields[..|fields|] == fields;
  }

  // Reading an optional member: absent is None, present must have the right type.

  function OptionalString(j: Json, key: string): Result<Option<string>, JsonError> {
    if Contains(j, key) then
      var s :- AsString(j.fields[key]);
      Success(Some(s))
    else Success(None)
  }

  function OptionalStringMap(j: Json, key: string): Result<Option<StringMap>, JsonError> {
    if Contains(j, key) then
      var m :- AsStringMap(j.fields[key]);
      Success(Some(m))
    else Success(None)
  }

  function DecodeEnvironment(j: Json): Result<Environment, JsonError> {
    var tier :- OptionalString(j, "tier");
    Success(Environment(tier))
  }

  method UserFromJson(j: Json) returns (r: Result<User, JsonError>)
    ensures r == DecodeUser(j)
  {
    if !j.JObject? {
      return Failure(TypeError);
    }
    var u := DEFAULT_USER;
    var userId :- AsString(ValueOr(j, "userID", JString("")));
    u := u.(userId := Some(userId));
    var customIds :- AsStringMap(ValueOr(j, "customIDs", JObject(map[])));
    u := u.(customIds := customIds);
    var email :- OptionalString(j, "email");
    u := u.(email := email);
    var ip :- OptionalString(j, "ip");
    u := u.(ip := ip);
    var userAgent :- OptionalString(j, "userAgent");
    u := u.(userAgent := userAgent);
    var country :- OptionalString(j, "country");
    u := u.(country := country);
    var locale :- OptionalString(j, "locale");
    u := u.(locale := locale);
    var appVersion :- OptionalString(j, "appVersion");
    u := u.(appVersion := appVersion);
    var custom :- OptionalStringMap(j, "custom");
    u := u.(custom := custom);
    var privateAttributes :- OptionalStringMap(j, "privateAttributes");
    u := u.(privateAttributes := privateAttributes);
    if Contains(j, "statsigEnvironment") {
      var environment :- DecodeEnvironment(j.fields["statsigEnvironment"]);
      u := u.(environment := Some(environment));
    }
    r := Success(u);
  }

  function DecodeUser(j: Json): Result<User, JsonError> {
    if !j.JObject? then Failure(TypeError)
    else
    var userId :- AsString(ValueOr(j, "userID", JString("")));
    var customIds :- AsStringMap(ValueOr(j, "customIDs", JObject(map[])));
    var email :- OptionalString(j, "email");
    var ip :- OptionalString(j, "ip");
    var userAgent :- OptionalString(j, "userAgent");
    var country :- OptionalString(j, "country");
    var locale :- OptionalString(j, "locale");
    var appVersion :- OptionalString(j, "appVersion");
    var custom :- OptionalStringMap(j, "custom");
    var privateAttributes :- OptionalStringMap(j, "privateAttributes");
    var environment :- DecodeEnvironmentMember(j);
    Success(User(Some(userId), customIds, email, ip, userAgent, country, locale, appVersion,
                 custom, privateAttributes, environment))
  }

  /** An absent user id comes back as the empty one. */
  function NormalUser(u: User): User {
    if u == DEFAULT_USER then u else u.(userId := Some(u.userId.GetOr("")))
  }

  lemma EmptyUserIsNull(u: User)
    ensures Assemble(UserFields(u)).JNull? <==> u == DEFAULT_USER
  {
    var fields := UserFields(u);
    AssembleNull(fields);
    if forall f :: f in fields ==> f.1.None? {
      assert forall i :: 0 <= i < 11 ==> fields[i] in fields;
      assert fields[0].1.None? && fields[1].1.None? && fields[2].1.None? && fields[3].1.None?;
      assert fields[4].1.None? && fields[5].1.None? && fields[6].1.None? && fields[7].1.None?;
      assert fields[8].1.None? && fields[9].1.None? && fields[10].1.None?;
    }
  }

  lemma UserMember(u: User, i: nat, key: string, field: Option<Json>)
    requires i < 11 && UserFields(u)[i] == (key, field)
    ensures Contains(Assemble(UserFields(u)), key) <==> field.Some?
    ensures field.Some? ==> Assemble(UserFields(u)).fields[key] == field.value
  {
    UserKeysDistinct(u);
    AssembleLookup(UserFields(u), i);
  }

  /** The string members of a user document by their names. */
  lemma UserStrings(u: User)
    ensures var j := Assemble(UserFields(u));
      && HoldsText(j, "userID", u.userId)
      && HoldsText(j, "email", u.email)
      && HoldsText(j, "ip", u.ip)
      && HoldsText(j, "userAgent", u.userAgent)
      && HoldsText(j, "country", u.country)
      && HoldsText(j, "locale", u.locale)
      && HoldsText(j, "appVersion", u.appVersion)
  {
    UserMember(u, 1, "userID", Text(u.userId));
    UserMember(u, 2, "email", Text(u.email));
    UserMember(u, 3, "ip", Text(u.ip));
    UserMember(u, 4, "userAgent", Text(u.userAgent));
    UserMember(u, 5, "country", Text(u.country));
    UserMember(u, 6, "locale", Text(u.locale));
    UserMember(u, 7, "appVersion", Text(u.appVersion));
  }

  /** The document has this member exactly if there is a value, which is the member then. */
  predicate HoldsText(j: Json, key: string, value: Option<string>) {
    if value.Some? then Contains(j, key) && j.fields[key] == JString(value.value) else !Contains(j, key)
  }

  predicate HoldsMap(j: Json, key: string, value: Option<StringMap>) {
    if value.Some? then
      && Contains(j, key) && j.fields[key].JObject? && j.fields[key].fields.Keys == value.value.Keys
      && forall k :: k in value.value ==> j.fields[key].fields[k] == JString(value.value[k])
    else !Contains(j, key)
  }

  /** The members that are maps, and the environment with its tier. Empty custom ids are left out. */
  lemma UserMaps(u: User)
    ensures var j := Assemble(UserFields(u));
      && HoldsMap(j, "customIDs", if u.customIds == map[] then None else Some(u.customIds))
      && HoldsMap(j, "custom", u.custom)
      && HoldsMap(j, "privateAttributes", u.privateAttributes)
      && (Contains(j, "statsigEnvironment") <==> u.environment.Some?)
      && (u.environment.Some? ==> HoldsText(j.fields["statsigEnvironment"], "tier", u.environment.value.tier))
  {
    UserMember(u, 0, "customIDs", if u.customIds == map[] then None else Some(FromStringMap(u.customIds)));
    UserMember(u, 8, "custom", TextMap(u.custom));
    UserMember(u, 9, "privateAttributes", TextMap(u.privateAttributes));
    UserMember(u, 10, "statsigEnvironment",
               if u.environment.Some? then Some(EncodeEnvironment(u.environment.value)) else None);
  }

  lemma OptionalStringRead(u: User, i: nat, key: string, o: Option<string>)
    requires i < 11 && UserFields(u)[i] == (key, Text(o))
    ensures OptionalString(Assemble(UserFields(u)), key) == Success(o)
  {
    UserMember(u, i, key, Text(o));
  }

  lemma OptionalStringMapRead(u: User, i: nat, key: string, o: Option<StringMap>)
    requires i < 11 && UserFields(u)[i] == (key, TextMap(o))
    ensures OptionalStringMap(Assemble(UserFields(u)), key) == Success(o)
  {
    UserMember(u, i, key, TextMap(o));
    if o.Some? { StringMapRoundTrip(o.value); }
  }

  lemma UserRoundTrip(u: User)
    requires u != DEFAULT_USER
    ensures DecodeUser(Assemble(UserFields(u))) == Success(NormalUser(u))
  {
    var j := Assemble(UserFields(u));
    EmptyUserIsNull(u);
    CustomIdsRead(u);
    UserIdRead(u);
    EnvironmentRead(u);
    OptionalStringRead(u, 2, "email", u.email);
    OptionalStringRead(u, 3, "ip", u.ip);
    OptionalStringRead(u, 4, "userAgent", u.userAgent);
    OptionalStringRead(u, 5, "country", u.country);
    OptionalStringRead(u, 6, "locale", u.locale);
    OptionalStringRead(u, 7, "appVersion", u.appVersion);
    OptionalStringMapRead(u, 8, "custom", u.custom);
    OptionalStringMapRead(u, 9, "privateAttributes", u.privateAttributes);
    DecodeUserFrom(j, u);
  }

  lemma CustomIdsRead(u: User)
    ensures var j := Assemble(UserFields(u));
      j.JObject? ==> AsStringMap(ValueOr(j, "customIDs", JObject(map[]))) == Success(u.customIds)
  {
    UserMember(u, 0, "customIDs", UserFields(u)[0].1);
    StringMapRoundTrip(u.customIds);
  }

  lemma UserIdRead(u: User)
    ensures var j := Assemble(UserFields(u));
      j.JObject? ==> AsString(ValueOr(j, "userID", JString(""))) == Success(u.userId.GetOr(""))
  {
    UserMember(u, 1, "userID", Text(u.userId));
  }

  /** The environment member of a user document, absent or decoded. */
  function DecodeEnvironmentMember(j: Json): Result<Option<Environment>, JsonError> {
    if Contains(j, "statsigEnvironment") then
      var e :- DecodeEnvironment(j.fields["statsigEnvironment"]);
      Success(Some(e))
    else Success(None)
  }

  lemma EnvironmentRead(u: User)
    ensures DecodeEnvironmentMember(Assemble(UserFields(u))) == Success(u.environment)
  {
    UserMember(u, 10, "statsigEnvironment", UserFields(u)[10].1);
  }

  /** A document whose members read as those of `u` decodes to `u`, apart from an absent user id. */
  lemma DecodeUserFrom(j: Json, u: User)
    requires j.JObject? && u != DEFAULT_USER
    requires AsString(ValueOr(j, "userID", JString(""))) == Success(u.userId.GetOr(""))
    requires AsStringMap(ValueOr(j, "customIDs", JObject(map[]))) == Success(u.customIds)
    requires OptionalString(j, "email") == Success(u.email) && OptionalString(j, "ip") == Success(u.ip)
    requires OptionalString(j, "userAgent") == Success(u.userAgent) && OptionalString(j, "country") == Success(u.country)
    requires OptionalString(j, "locale") == Success(u.locale) && OptionalString(j, "appVersion") == Success(u.appVersion)
    requires OptionalStringMap(j, "custom") == Success(u.custom)
    requires OptionalStringMap(j, "privateAttributes") == Success(u.privateAttributes)
    requires DecodeEnvironmentMember(j) == Success(u.environment)
    ensures DecodeUser(j) == Success(NormalUser(u))
  {
  }

  // ---- events ----

  function Value(e: Event): Option<Json> {
    if e.stringValue.Some? then Some(JString(e.stringValue.value))
    else if e.doubleValue.Some? then Some(JFloat(e.doubleValue.value))
    else None
  }

  function Metadata(e: Event): Option<Json> {
    if e.metadata.Some? then Some(JObject(e.metadata.value)) else None
  }

  function Exposures(e: Event): Option<Json> {
    if e.secondaryExposures.Some? then
      Some(JArray(seq(|e.secondaryExposures.value|, i requires 0 <= i < |e.secondaryExposures.value| =>
        FromStringMap(e.secondaryExposures.value[i]))))
    else None
  }

  /** The document of an event. Exposures are written in camel case. */
  function EncodeEvent(e: Event): Json {
    Assemble(EventFields(e))
  }

  method EventToJson(e: Event) returns (j: Json)
    ensures j == EncodeEvent(e)
  {
    var user := UserToJson(e.user);
    j := JObject(map["eventName" := JString(e.name), "time" := JInt(e.time), "user" := user]);
    ghost var fields := EventFields(e);
    AssembleThree(fields);
    if e.metadata.Some? {
      j := Put(j, "metadata", JObject(e.metadata.value));
    }
    assert j == Assemble(fields[..4]) by { assert fields[..4][..3] == fields[..3]; }
    if e.secondaryExposures.Some? {
      j := Put(j, "secondaryExposures", Exposures(e).value);
    }
    assert j == Assemble(fields[..5]) by { assert fields[..5][..4] == fields[..4]; }
    if e.stringValue.Some? {
      j := Put(j, "value", JString(e.stringValue.value));
    } else if e.doubleValue.Some? {
      j := Put(j, "value", JFloat(e.doubleValue.value));
    }
    assert fields[..6] == fields && fields[..6][..5] == fields[..5];
  }

  lemma AssembleThree(fields: seq<Field>)
    requires |fields| >= 3 && fields[0].1.Some? && fields[1].1.Some? && fields[2].1.Some?
    ensures Assemble(fields[..3]) == JObject(map[
      fields[0].0 := fields[0].1.value, fields[1].0 := fields[1].1.value, fields[2].0 := fields[2].1.value])
  {
    assert fields[..0] == [];
    assert fields[..1][..0] == fields[..0] && fields[..2][..1] == fields[..1] && fields[..3][..2] == fields[..2];
    assert Assemble(fields[..1]) == JObject(map[fields[0].0 := fields[0].1.value]);
    assert Assemble(fields[..2]).fields == Assemble(fields[..1]).fields[fields[1].0 := fields[1].1.value];
    assert Assemble(fields[..3]).fields == Assemble(fields[..2]).fields[fields[2].0 := fields[2].1.value];
  }

  function DecodeExposures(items: seq<Json>): Result<seq<StringMap>, JsonError> {
    if items == [] then Success([])
    else
      var head :- AsStringMap(items[0]);
      var tail :- DecodeExposures(items[1..]);
      Success([head] + tail)
  }

  /** The event that a document denotes. Exposures are looked up in snake case. */
  function DecodeEvent(j: Json): Result<Event, JsonError> {
    var nameJson :- At(j, "eventName");
    var name :- AsString(nameJson);
    var timeJson :- At(j, "time");
    var time :- AsInteger(timeJson);
    var user :- DecodeUserMember(j);
    var metadata := ValueOr(j, "metadata", JNull);
    var exposuresJson := ValueOr(j, "secondary_exposures", JNull);
    var exposures :- (
      if exposuresJson.JArray? then
        var list :- DecodeExposures(exposuresJson.items);
        Success(Some(list))
      else Success(None));
    var value := ValueOr(j, "value", JNull);
    Success(Event(name, time, user,
      if value.JString? then Some(value.s) else None,
      if value.JInt? then Some(value.i as real) else if value.JFloat? then Some(value.r) else None,
      if metadata.JObject? then Some(metadata.fields) else None,
      exposures))
  }

  method EventFromJson(j: Json) returns (r: Result<Event, JsonError>)
    ensures r == DecodeEvent(j)
  {
    var result := Event("", 0, DEFAULT_USER, None, None, None, None);
    var nameJson :- At(j, "eventName");
    var name :- AsString(nameJson);
    result := result.(name := name);
    var timeJson :- At(j, "time");
    var time :- AsInteger(timeJson);
    result := result.(time := time);

    var userJson := ValueOr(j, "user", JNull);
    if userJson.JObject? {
      var decoded := UserFromJson(userJson);
      var user :- decoded;
      result := result.(user := user);
    }
    var metadata := ValueOr(j, "metadata", JNull);
    if metadata.JObject? {
      result := result.(metadata := Some(metadata.fields));
    }
    var exposuresJson := ValueOr(j, "secondary_exposures", JNull);
    if exposuresJson.JArray? {
      var list :- DecodeExposures(exposuresJson.items);
      result := result.(secondaryExposures := Some(list));
    }
    var value := ValueOr(j, "value", JNull);
    if value.JString? {
      result := result.(stringValue := Some(value.s));
    } else if value.JInt? {
      result := result.(doubleValue := Some(value.i as real));
    } else if value.JFloat? {
      result := result.(doubleValue := Some(value.r));
    }
    r := Success(result);
  }

  /** What survives a trip through the file. */
  function NormalEvent(e: Event): Event {
    e.(user := NormalUser(e.user),
       doubleValue := if e.stringValue.Some? then None else e.doubleValue,
       secondaryExposures := None)
  }

  function EventFields(e: Event): seq<Field> {
    [("eventName", Some(JString(e.name))), ("time", Some(JInt(e.time))),
     ("user", Some(Assemble(UserFields(e.user)))), ("metadata", Metadata(e)),
     ("secondaryExposures", Exposures(e)), ("value", Value(e))]
  }

  lemma EventMember(e: Event, i: nat, key: string, field: Option<Json>)
    requires i < 6 && EventFields(e)[i] == (key, field)
    ensures Contains(EncodeEvent(e), key) <==> field.Some?
    ensures field.Some? ==> EncodeEvent(e).fields[key] == field.value
  {
    var fields := EventFields(e);
    forall i, j | 0 <= i < j < |fields| ensures fields[i].0 != fields[j].0 {
      assert |fields| == 6;
    }
    AssembleLookup(fields, i);
  }

  lemma EventRoundTrip(e: Event)
    ensures DecodeEvent(EncodeEvent(e)) == Success(NormalEvent(e))
  {
    RequiredMembersRead(e);
    UserMemberRoundTrip(e);
    OptionalMembersRead(e);
    DecodeEventFrom(EncodeEvent(e), e);
  }

  /**
   * The members of an event document by their names. There is one value, the string if there are
   * both, and the array of exposures reads back as the exposures, although the decoder of events does
   * not look for it under this name.
   */
  lemma EventDocument(e: Event)
    ensures var j := EncodeEvent(e);
      && Contains(j, "eventName") && j.fields["eventName"] == JString(e.name)
      && Contains(j, "time") && j.fields["time"] == JInt(e.time)
      && Contains(j, "user") && j.fields["user"] == Assemble(UserFields(e.user))
      && (if e.metadata.Some? then Contains(j, "metadata") && j.fields["metadata"] == JObject(e.metadata.value)
          else !Contains(j, "metadata"))
      && (if e.stringValue.Some? then Contains(j, "value") && j.fields["value"] == JString(e.stringValue.value)
          else if e.doubleValue.Some? then Contains(j, "value") && j.fields["value"] == JFloat(e.doubleValue.value)
          else !Contains(j, "value"))
  {
    EventMember(e, 0, "eventName", Some(JString(e.name)));
    EventMember(e, 1, "time", Some(JInt(e.time)));
    EventMember(e, 2, "user", Some(Assemble(UserFields(e.user))));
    EventMember(e, 3, "metadata", Metadata(e));
    EventMember(e, 5, "value", Value(e));
  }

  lemma ExposuresReadBack(e: Event)
    ensures var j := EncodeEvent(e);
      && (Contains(j, "secondaryExposures") <==> e.secondaryExposures.Some?)
      && (e.secondaryExposures.Some? ==>
            && j.fields["secondaryExposures"].JArray?
            && DecodeExposures(j.fields["secondaryExposures"].items) == Success(e.secondaryExposures.value))
  {
    EventMember(e, 4, "secondaryExposures", Exposures(e));
    if e.secondaryExposures.Some? {
      var list := e.secondaryExposures.value;
      ExposuresDecode(Exposures(e).value.items, list);
    }
  }

  lemma {:induction false} ExposuresDecode(items: seq<Json>, list: seq<StringMap>)
    requires |items| == |list| && forall i :: 0 <= i < |list| ==> items[i] == FromStringMap(list[i])
    ensures DecodeExposures(items) == Success(list)
  {
    if items != [] {
      StringMapRoundTrip(list[0]);
      ExposuresDecode(items[1..], list[1..]);
      assert [list[0]] + list[1..] == list;
    }
  }

  lemma RequiredMembersRead(e: Event)
    ensures At(EncodeEvent(e), "eventName") == Success(JString(e.name))
    ensures At(EncodeEvent(e), "time") == Success(JInt(e.time))
  {
    EventMember(e, 0, "eventName", Some(JString(e.name)));
    EventMember(e, 1, "time", Some(JInt(e.time)));
  }

  lemma OptionalMembersRead(e: Event)
    requires EncodeEvent(e).JObject?
    ensures ValueOr(EncodeEvent(e), "metadata", JNull) == Metadata(e).GetOr(JNull)
    ensures ValueOr(EncodeEvent(e), "value", JNull) == Value(e).GetOr(JNull)
    ensures ValueOr(EncodeEvent(e), "secondary_exposures", JNull) == JNull
  {
    EventMember(e, 3, "metadata", Metadata(e));
    EventMember(e, 5, "value", Value(e));
    AssembleOmits(EventFields(e), "secondary_exposures");
  }

  /** A document whose members read as those of `e` decodes to the normal form of `e`. */
  lemma DecodeEventFrom(j: Json, e: Event)
    requires j.JObject? && DecodeUserMember(j) == Success(NormalUser(e.user))
    requires At(j, "eventName") == Success(JString(e.name)) && At(j, "time") == Success(JInt(e.time))
    requires ValueOr(j, "metadata", JNull) == Metadata(e).GetOr(JNull)
    requires ValueOr(j, "value", JNull) == Value(e).GetOr(JNull)
    requires ValueOr(j, "secondary_exposures", JNull) == JNull
    ensures DecodeEvent(j) == Success(NormalEvent(e))
  {
  }

  lemma UserMemberRoundTrip(e: Event)
    ensures EncodeEvent(e).JObject? && DecodeUserMember(EncodeEvent(e)) == Success(NormalUser(e.user))
  {
    EventMember(e, 0, "eventName", Some(JString(e.name)));
    EventMember(e, 2, "user", Some(Assemble(UserFields(e.user))));
    EmptyUserIsNull(e.user);
    if e.user != DEFAULT_USER { UserRoundTrip(e.user); }
  }

  /** The user of an event document; anything but an object leaves the default user. */
  function DecodeUserMember(j: Json): Result<User, JsonError>
    requires j.JObject?
  {
    var userJson := ValueOr(j, "user", JNull);
    if userJson.JObject? then DecodeUser(userJson) else Success(DEFAULT_USER)
  }

  // ---- which documents decode ----

  predicate IsStringMap(j: Json) {
    j.JObject? && forall k :: k in j.fields ==> j.fields[k].JString?
  }

  predicate AbsentOrString(j: Json, key: string) {
    !Contains(j, key) || j.fields[key].JString?
  }

  predicate AbsentOrStringMap(j: Json, key: string) {
    !Contains(j, key) || IsStringMap(j.fields[key])
  }

  /** A user document decodes exactly if each member that is there has its type; anything else is a type error. */
  lemma UserDecodes(j: Json)
    ensures DecodeUser(j).Success? <==>
      && j.JObject?
      && AbsentOrString(j, "userID") && AbsentOrString(j, "email") && AbsentOrString(j, "ip")
      && AbsentOrString(j, "userAgent") && AbsentOrString(j, "country") && AbsentOrString(j, "locale")
      && AbsentOrString(j, "appVersion")
      && AbsentOrStringMap(j, "customIDs") && AbsentOrStringMap(j, "custom") && AbsentOrStringMap(j, "privateAttributes")
      && (Contains(j, "statsigEnvironment") ==> AbsentOrString(j.fields["statsigEnvironment"], "tier"))
    ensures DecodeUser(j).Failure? ==> DecodeUser(j).error == TypeError
  {
  }

  /** A list of exposures decodes exactly if its elements are maps of strings. */
  lemma {:induction false} ExposuresDecodeExactly(items: seq<Json>)
    ensures DecodeExposures(items).Success? <==> forall item :: item in items ==> IsStringMap(item)
  {
    if items != [] {
      assert forall item :: item in items <==> item == items[0] || item in items[1..];
      assert AsStringMap(items[0]).Success? <==> IsStringMap(items[0]);
      ExposuresDecodeExactly(items[1..]);
    }
  }

  /**
   * An event document decodes exactly if it has a name and a time of the right type, and a user
   * object and a snake-case exposure array, if there, decode. Metadata and value never fail.
   */
  lemma EventDecodes(j: Json)
    ensures DecodeEvent(j).Success? <==>
      && Contains(j, "eventName") && j.fields["eventName"].JString?
      && Contains(j, "time") && (j.fields["time"].JInt? || j.fields["time"].JFloat?)
      && (Contains(j, "user") && j.fields["user"].JObject? ==> DecodeUser(j.fields["user"]).Success?)
      && (Contains(j, "secondary_exposures") && j.fields["secondary_exposures"].JArray? ==>
            forall item :: item in j.fields["secondary_exposures"].items ==> IsStringMap(item))
  {
    if Contains(j, "secondary_exposures") && j.fields["secondary_exposures"].JArray? {
      ExposuresDecodeExactly(j.fields["secondary_exposures"].items);
    }
  }

  /** The number of an event may be an integer; a value of any other type is no value. */
  lemma DecodedValue(j: Json)
    requires DecodeEvent(j).Success?
    ensures var e := DecodeEvent(j).value;
      var value := if Contains(j, "value") then j.fields["value"] else JNull;
      && (e.stringValue.Some? <==> value.JString?) && (e.doubleValue.Some? <==> value.JInt? || value.JFloat?)
      && (value.JString? ==> e.stringValue == Some(value.s))
      && (value.JInt? ==> e.doubleValue == Some(value.i as real))
      && (value.JFloat? ==> e.doubleValue == Some(value.r))
      && (Contains(j, "secondary_exposures") && j.fields["secondary_exposures"].JArray? <==> e.secondaryExposures.Some?)
  {
  }

  // ---- payloads ----

  function EncodeEvents(events: seq<Event>): seq<Json> {
    if events == [] then [] else EncodeEvents(events[..|events| - 1]) + [EncodeEvent(events[|events| - 1])]
  }

  function EncodePayload(p: Payload): Json {
    JObject(map["attempts" := JInt(p.attempts), "events" := JArray(EncodeEvents(p.events))])
  }

  function EncodePayloads(failures: seq<Payload>): seq<Json> {
    if failures == [] then []
    else EncodePayloads(failures[..|failures| - 1]) + [EncodePayload(failures[|failures| - 1])]
  }

  method PayloadToJson(payload: Payload) returns (j: Json)
    ensures j == EncodePayload(payload)
  {
    var items := [];
    for i := 0 to |payload.events|
      invariant items == EncodeEvents(payload.events[..i])
    {
      assert payload.events[..i + 1][..i] == payload.events[..i];
      var item := EventToJson(payload.events[i]);
      items := items + [item];
    }
    assert payload.events[..|payload.events|] == payload.events;
    j := JObject(map["attempts" := JInt(payload.attempts), "events" := JArray(items)]);
  }

  /** The document written to the failed-event file. */
  method Serialize(failures: seq<Payload>) returns (j: Json)
    ensures j == JArray(EncodePayloads(failures))
  {
    var items := [];
    for i := 0 to |failures|
      invariant items == EncodePayloads(failures[..i])
    {
      assert failures[..i + 1][..i] == failures[..i];
      var item := PayloadToJson(failures[i]);
      items := items + [item];
    }
    assert failures[..|failures|] == failures;
    j := JArray(items);
  }

  /** Elements decode from left to right; the first that fails fails the whole list. */
  function DecodeEvents(items: seq<Json>): Result<seq<Event>, JsonError> {
    if items == [] then Success([])
    else
      var front :- DecodeEvents(items[..|items| - 1]);
      var last :- DecodeEvent(items[|items| - 1]);
      Success(front + [last])
  }

  function DecodePayload(j: Json): Result<Payload, JsonError> {
    var attemptsJson :- At(j, "attempts");
    var attempts :- AsInt32(attemptsJson);
    var eventsJson :- At(j, "events");
    var items :- AsArray(eventsJson);
    var events :- DecodeEvents(items);
    Success(Payload(attempts, events))
  }

  function DecodePayloads(items: seq<Json>): Result<seq<Payload>, JsonError> {
    if items == [] then Success([])
    else
      var front :- DecodePayloads(items[..|items| - 1]);
      var last :- DecodePayload(items[|items| - 1]);
      Success(front + [last])
  }

  /** A failing prefix fails the list. */
  lemma {:induction false} DecodeEventsPrefix(items: seq<Json>, n: nat)
    requires n <= |items| && DecodeEvents(items[..n]).Failure?
    ensures DecodeEvents(items) == DecodeEvents(items[..n])
  {
    if n < |items| {
      assert items[..|items| - 1][..n] == items[..n];
      DecodeEventsPrefix(items[..|items| - 1], n);
    } else {
      assert items[..n] == items;
    }
  }

  lemma {:induction false} DecodePayloadsPrefix(items: seq<Json>, n: nat)
    requires n <= |items| && DecodePayloads(items[..n]).Failure?
    ensures DecodePayloads(items) == DecodePayloads(items[..n])
  {
    if n < |items| {
      assert items[..|items| - 1][..n] == items[..n];
      DecodePayloadsPrefix(items[..|items| - 1], n);
    } else {
      assert items[..n] == items;
    }
  }

  method PayloadFromJson(j: Json) returns (r: Result<Payload, JsonError>)
    ensures r == DecodePayload(j)
  {
    var attemptsJson :- At(j, "attempts");
    var attempts :- AsInt32(attemptsJson);
    var eventsJson :- At(j, "events");
    var items :- AsArray(eventsJson);
    var events := [];
    for i := 0 to |items|
      invariant DecodeEvents(items[..i]) == Success(events)
    {
      assert items[..i + 1][..i] == items[..i];
      var decoded := EventFromJson(items[i]);
      if decoded.Failure? {
        DecodeEventsPrefix(items, i + 1);
        return Failure(decoded.error);
      }
      events := events + [decoded.value];
    }
    assert items[..|items|] == items;
    r := Success(Payload(attempts, events));
  }

  /** A list of events decodes exactly if each of its elements does, and then element by element. */
  lemma {:induction false} EventsDecode(items: seq<Json>)
    ensures DecodeEvents(items).Success? <==> forall i :: 0 <= i < |items| ==> DecodeEvent(items[i]).Success?
    ensures DecodeEvents(items).Success? ==>
      && |DecodeEvents(items).value| == |items|
      && forall i :: 0 <= i < |items| ==> DecodeEvent(items[i]) == Success(DecodeEvents(items).value[i])
  {
    if items != [] {
      var front := items[..|items| - 1];
      EventsDecode(front);
      assert forall i :: 0 <= i < |front| ==> front[i] == items[i];
    }
  }

  lemma {:induction false} PayloadsDecode(items: seq<Json>)
    ensures DecodePayloads(items).Success? <==> forall i :: 0 <= i < |items| ==> DecodePayload(items[i]).Success?
    ensures DecodePayloads(items).Success? ==>
      && |DecodePayloads(items).value| == |items|
      && forall i :: 0 <= i < |items| ==> DecodePayload(items[i]) == Success(DecodePayloads(items).value[i])
  {
    if items != [] {
      var front := items[..|items| - 1];
      PayloadsDecode(front);
      assert forall i :: 0 <= i < |front| ==> front[i] == items[i];
    }
  }

  /**
   * A payload document decodes exactly if its attempts are a number or a boolean and its events an
   * array of events; the attempts are narrowed to 32 bits, and a boolean counts as 0 or 1.
   */
  lemma PayloadDecodes(j: Json)
    ensures DecodePayload(j).Success? <==>
      && Contains(j, "attempts") && Contains(j, "events") && j.fields["events"].JArray?
      && (j.fields["attempts"].JBool? || j.fields["attempts"].JInt? || j.fields["attempts"].JFloat?)
      && forall i :: 0 <= i < |j.fields["events"].items| ==> DecodeEvent(j.fields["events"].items[i]).Success?
    ensures DecodePayload(j).Success? ==>
      var attempts := DecodePayload(j).value.attempts;
      match j.fields["attempts"]
      case JBool(b) => attempts == if b then 1 else 0
      case JInt(i) => (attempts - i) % 0x1_0000_0000 == 0
      case JFloat(r) => (attempts - Truncate(r)) % 0x1_0000_0000 == 0
      case _ => false
  {
    if Contains(j, "events") && j.fields["events"].JArray? { EventsDecode(j.fields["events"].items); }
  }

  /** The file reads as payloads exactly if it is an array of payloads; one that is not spoils them all. */
  lemma FileDecodes(document: Option<Json>)
    ensures Deserialized(document).Success? <==>
      && document.Some? && document.value.JArray?
      && forall i :: 0 <= i < |document.value.items| ==> DecodePayload(document.value.items[i]).Success?
    ensures Deserialized(document).Failure? ==> Deserialized(document).error == JsonFailureRetryableEventPayload
  {
    if document.Some? && document.value.JArray? { PayloadsDecode(document.value.items); }
  }

  /** The payloads of a document; `None` is text that is not JSON. Every exception becomes one code. */
  function Deserialized(document: Option<Json>): Result<seq<Payload>, Code> {
    if document.Some? && document.value.JArray? && DecodePayloads(document.value.items).Success?
    then Success(DecodePayloads(document.value.items).value)
    else Failure(JsonFailureRetryableEventPayload)
  }

  method Deserialize(document: Option<Json>) returns (r: Result<seq<Payload>, Code>)
    ensures r == Deserialized(document)
  {
    if document.None? || !document.value.JArray? {
      return Failure(JsonFailureRetryableEventPayload);
    }
    var items := document.value.items;
    var payloads := [];
    for i := 0 to |items|
      invariant DecodePayloads(items[..i]) == Success(payloads)
    {
      assert items[..i + 1][..i] == items[..i];
      var decoded := PayloadFromJson(items[i]);
      if decoded.Failure? {
        DecodePayloadsPrefix(items, i + 1);
        return Failure(JsonFailureRetryableEventPayload);
      }
      payloads := payloads + [decoded.value];
    }
    assert items[..|items|] == items;
    r := Success(payloads);
  }

  // ---- the round trip ----

  function NormalEvents(events: seq<Event>): (r: seq<Event>)
    ensures |r| == |events|
  {
    seq(|events|, i requires 0 <= i < |events| => NormalEvent(events[i]))
  }

  function NormalPayload(p: Payload): Payload {
    p.(events := NormalEvents(p.events))
  }

  function NormalPayloads(ps: seq<Payload>): (r: seq<Payload>)
    ensures |r| == |ps|
  {
    seq(|ps|, i requires 0 <= i < |ps| => NormalPayload(ps[i]))
  }

  lemma {:induction false} DecodeAllEvents(items: seq<Json>, events: seq<Event>)
    requires |items| == |events|
    requires forall i :: 0 <= i < |items| ==> DecodeEvent(items[i]) == Success(events[i])
    ensures DecodeEvents(items) == Success(events)
  {
    if items != [] {
      DecodeAllEvents(items[..|items| - 1], events[..|items| - 1]);
      assert events == events[..|items| - 1] + [events[|items| - 1]];
    }
  }

  lemma {:induction false} DecodeAllPayloads(items: seq<Json>, ps: seq<Payload>)
    requires |items| == |ps|
    requires forall i :: 0 <= i < |items| ==> DecodePayload(items[i]) == Success(ps[i])
    ensures DecodePayloads(items) == Success(ps)
  {
    if items != [] {
      DecodeAllPayloads(items[..|items| - 1], ps[..|items| - 1]);
      assert ps == ps[..|items| - 1] + [ps[|items| - 1]];
    }
  }

  lemma {:induction false} EncodedEventsAt(events: seq<Event>)
    ensures |EncodeEvents(events)| == |events|
    ensures forall i :: 0 <= i < |events| ==> EncodeEvents(events)[i] == EncodeEvent(events[i])
  {
    if events != [] {
      var front, last := events[..|events| - 1], EncodeEvent(events[|events| - 1]);
      EncodedEventsAt(front);
      assert EncodeEvents(events) == EncodeEvents(front) + [last];
      forall i | 0 <= i < |events| ensures EncodeEvents(events)[i] == EncodeEvent(events[i]) {
        assert i < |front| ==> front[i] == events[i];
      }
    }
  }

  lemma {:induction false} EncodedPayloadsAt(ps: seq<Payload>)
    ensures |EncodePayloads(ps)| == |ps|
    ensures forall i :: 0 <= i < |ps| ==> EncodePayloads(ps)[i] == EncodePayload(ps[i])
  {
    if ps != [] {
      var front, last := ps[..|ps| - 1], EncodePayload(ps[|ps| - 1]);
      EncodedPayloadsAt(front);
      assert EncodePayloads(ps) == EncodePayloads(front) + [last];
      forall i | 0 <= i < |ps| ensures EncodePayloads(ps)[i] == EncodePayload(ps[i]) {
        assert i < |front| ==> front[i] == ps[i];
      }
    }
  }

  lemma EventsRoundTrip(events: seq<Event>)
    ensures DecodeEvents(EncodeEvents(events)) == Success(NormalEvents(events))
  {
    EncodedEventsAt(events);
    forall i | 0 <= i < |events| ensures DecodeEvent(EncodeEvents(events)[i]) == Success(NormalEvents(events)[i]) {
      EventRoundTrip(events[i]);
    }
    DecodeAllEvents(EncodeEvents(events), NormalEvents(events));
  }

  lemma PayloadDocument(attempts: int32, items: seq<Json>, events: seq<Event>)
    requires DecodeEvents(items) == Success(events)
    ensures DecodePayload(JObject(map["attempts" := JInt(attempts), "events" := JArray(items)]))
      == Success(Payload(attempts, events))
  {
    assert WrapInt32(attempts) == attempts;
  }

  lemma PayloadRoundTrip(p: Payload)
    ensures DecodePayload(EncodePayload(p)) == Success(NormalPayload(p))
  {
    EventsRoundTrip(p.events);
    PayloadDocument(p.attempts, EncodeEvents(p.events), NormalEvents(p.events));
  }

  lemma PayloadsRoundTrip(ps: seq<Payload>)
    ensures DecodePayloads(EncodePayloads(ps)) == Success(NormalPayloads(ps))
  {
    EncodedPayloadsAt(ps);
    forall i | 0 <= i < |ps| ensures DecodePayload(EncodePayloads(ps)[i]) == Success(NormalPayloads(ps)[i]) {
      PayloadRoundTrip(ps[i]);
    }
    DecodeAllPayloads(EncodePayloads(ps), NormalPayloads(ps));
  }

  /** Reading back what was written yields the normal form of every payload, in order. */
  lemma FileRoundTrip(failures: seq<Payload>)
    ensures Deserialized(Some(JArray(EncodePayloads(failures)))) == Success(NormalPayloads(failures))
    ensures forall i :: 0 <= i < |failures| ==>
      && NormalPayloads(failures)[i].attempts == failures[i].attempts
      && |NormalPayloads(failures)[i].events| == |failures[i].events|
  {
    PayloadsRoundTrip(failures);
  }

  /** The normal form is a fixed point, and reporting it does not move the user's hash. */
  lemma NormalFormStable(e: Event)
    ensures NormalEvent(NormalEvent(e)) == NormalEvent(e)
    ensures FullUserHash(NormalEvent(e).user) == FullUserHash(e.user)
  {
    assert FullUserPairs(NormalUser(e.user)) == FullUserPairs(e.user);
  }

  predicate LosesNothing(e: Event) {
    && e.secondaryExposures.None?
    && (e.stringValue.None? || e.doubleValue.None?)
    && (e.user.userId.Some? || e.user == DEFAULT_USER)
  }

  /** Exactly which lists come back unchanged. */
  lemma RoundTripExact(failures: seq<Payload>)
    ensures Deserialized(Some(JArray(EncodePayloads(failures)))) == Success(failures)
      <==> forall i, k :: 0 <= i < |failures| && 0 <= k < |failures[i].events| ==> LosesNothing(failures[i].events[k])
  {
    FileRoundTrip(failures);
    forall i, k | 0 <= i < |failures| && 0 <= k < |failures[i].events|
      ensures LosesNothing(failures[i].events[k])
        <==> NormalPayloads(failures)[i].events[k] == failures[i].events[k]
    {
    }
    if forall i, k :: 0 <= i < |failures| && 0 <= k < |failures[i].events| ==> LosesNothing(failures[i].events[k]) {
      forall i | 0 <= i < |failures| ensures NormalPayloads(failures)[i] == failures[i] {
        assert NormalPayloads(failures)[i].events == failures[i].events;
      }
      assert NormalPayloads(failures) == failures;
    }
  }
}
