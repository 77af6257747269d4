/** The itinerary service: the API-key check at load time, the request it
    sends (language name, interest list, response schema) and the way it
    turns the AI's reply, or a failure, into a result. The AI call itself
    is outside the model: its reply is a parameter. */
module GeminiService {
  import opened Wrappers
  import Text
  import JsNumbers
  import opened Json
  import opened Types
  import opened PlanJson

  // ---------------------------------------------------------------------
  // Loading the service

  const MissingKeyMessage: string := "API_KEY environment variable is not set"

  /** A loaded service; one exists only when an API key was set. */
  datatype Service = Service(apiKey: string)

  /** Loading the service module: a missing or empty `API_KEY` throws before
      any generation can run. */
  function LoadService(apiKey: Option<string>): (r: Result<Service, string>)
    ensures r.Ok? <==> apiKey.Some? && apiKey.value != ""
    ensures r.Ok? ==> r.value.apiKey == apiKey.value
    ensures r.Err? ==> r.error == MissingKeyMessage
  {
    match apiKey
    case Some(k) => if k == "" then Err(MissingKeyMessage) else Ok(Service(k))
    case None => Err(MissingKeyMessage)
  }

  // ---------------------------------------------------------------------
  // The request

  /** The English name of each response language. */
  function LanguageName(l: Language): string
  {
    match l
    case En => "English"
    case Hi => "Hindi"
    case Ta => "Tamil"
    case Te => "Telugu"
    case Ml => "Malayalam"
  }

  /** Different languages are asked for by different names, so the request
      determines the language. */
  lemma LanguageNamesDistinct(a: Language, b: Language)
    ensures LanguageName(a) == LanguageName(b) <==> a == b
  {
  }

  /** `interests.join(', ')`. */
  function InterestList(interests: seq<string>): (r: string)
    ensures |interests| == 0 ==> r == ""
  {
    Text.Join(interests, ", ")
  }

  /** Every interest appears in the prompt's list, in list order, each
      followed by ", " except the last. */
  lemma InterestListKeepsOrder(interests: seq<string>, i: nat)
    requires i < |interests|
    ensures Text.ItemAt(InterestList(interests), interests[i], ", ", Text.JoinOffset(interests, ", ", i), i + 1 == |interests|)
  {
    Text.JoinKeepsItemsInOrder(interests, ", ", i);
  }

  /** What the prompt is filled with, besides its fixed prose. */
  datatype Request = Request(
    destination: string,
    duration: int,
    budget: JsNumbers.Num,
    interestList: string,
    languageName: string,
    schema: Schema)

  function BuildRequest(p: TripPreferences): (r: Request)
    ensures r.destination == p.destination && r.duration == p.duration && r.budget == p.budget
    ensures r.interestList == InterestList(p.interests)
    ensures r.languageName == LanguageName(p.language)
    ensures r.schema == ResponseSchema
  {
    Request(p.destination, p.duration, p.budget, InterestList(p.interests), LanguageName(p.language), ResponseSchema)
  }

  /** Two requests for different languages differ. */
  lemma RequestNamesLanguage(p: TripPreferences, q: TripPreferences)
    requires p.language != q.language
    ensures BuildRequest(p) != BuildRequest(q)
  {
    LanguageNamesDistinct(p.language, q.language);
  }

  // ---------------------------------------------------------------------
  // The response schema

  datatype Schema =
    | SString
    | SNumber
    | SInteger
    | SBoolean
    | SArray(item: Schema)
    | SObject(properties: seq<Property>, required: seq<string>)

  datatype Property = Property(name: string, schema: Schema)

  const ActivitySchema: Schema := SObject(
    [Property("time", SString), Property("description", SString),
     Property("estimatedCost", SNumber), Property("bookingNeeded", SBoolean)],
    ["time", "description", "estimatedCost", "bookingNeeded"])

  const DaySchema: Schema := SObject(
    [Property("day", SInteger), Property("title", SString),
     Property("activities", SArray(ActivitySchema)), Property("dailyCost", SNumber)],
    ["day", "title", "activities", "dailyCost"])

  const AccommodationSchema: Schema := SObject(
    [Property("name", SString), Property("description", SString), Property("estimatedCostPerNight", SNumber)],
    ["name", "description", "estimatedCostPerNight"])

  const TransportationSchema: Schema := SObject([Property("recommendation", SString)], ["recommendation"])

  const ResponseSchema: Schema := SObject(
    [Property("tripTitle", SString), Property("totalEstimatedCost", SNumber),
     Property("accommodation", SArray(AccommodationSchema)), Property("transportation", TransportationSchema),
     Property("dailyPlans", SArray(DaySchema))],
    ["tripTitle", "totalEstimatedCost", "accommodation", "transportation", "dailyPlans"])

  function Names(props: seq<Property>): (r: seq<string>)
    ensures |r| == |props| && forall i :: 0 <= i < |props| ==> r[i] == props[i].name
  {
    seq(|props|, i requires 0 <= i < |props| => props[i].name)
  }

  /** Every object schema inside `s` requires each of its properties. */
  predicate AllRequired(s: Schema)
  {
    match s
    case SArray(item) => AllRequired(item)
    case SObject(props, req) => req == Names(props) && forall i :: 0 <= i < |props| ==> AllRequired(props[i].schema)
    case _ => true
  }

  /** No field of the response schema is optional, at any level. */
  lemma ResponseSchemaRequiresAll()
    ensures AllRequired(ResponseSchema)
  {
    assert AllRequired(ActivitySchema);
    assert AllRequired(DaySchema);
    assert AllRequired(AccommodationSchema);
    assert AllRequired(TransportationSchema);
  }

  /** A value of the shape the schema describes: the right kind of value,
      every required property present, and every declared property that
      is present of its declared shape. Numbers are whole in this model,
      so `NUMBER` and `INTEGER` accept the same values. */
  predicate Conforms(v: Value, s: Schema)
  {
    match s
    case SString => v.String?
    case SNumber => v.Number?
    case SInteger => v.Number?
    case SBoolean => v.Bool?
    case SArray(item) => v.Array? && forall i :: 0 <= i < |v.items| ==> Conforms(v.items[i], item)
    case SObject(props, req) =>
      && v.Object?
      && (forall k :: k in req ==> Get(v.members, k).Some?)
      && (forall i, j :: 0 <= i < |props| && 0 <= j < |v.members| && v.members[j].key == props[i].name ==>
            Conforms(v.members[j].value, props[i].schema))
  }

  /** The member `Get` finds is one of the members. */
  lemma {:induction false} GetWitness(ms: seq<Member>, key: string) returns (j: nat)
    requires Get(ms, key).Some?
    ensures j < |ms| && ms[j].key == key && ms[j].value == Get(ms, key).value
  {
    if ms[0].key == key {
      j := 0;
    } else {
      var k := GetWitness(ms[1..], key);
      j := k + 1;
    }
  }

  /** A required property of a conforming object is present and has its
      declared shape. */
  lemma RequiredField(v: Value, s: Schema, i: nat) returns (x: Value)
    requires s.SObject? && Conforms(v, s)
    requires i < |s.properties| && i < |s.required| && s.required[i] == s.properties[i].name
    ensures Field(v, s.properties[i].name) == Some(x) && Conforms(x, s.properties[i].schema)
  {
    assert s.required[i] in s.required;
    var j := GetWitness(v.members, s.properties[i].name);
    x := v.members[j].value;
  }

  lemma ActivityConformsReads(v: Value)
    requires Conforms(v, ActivitySchema)
    ensures ActivityFromJson(v).Some?
  {
    var time := RequiredField(v, ActivitySchema, 0);
    var description := RequiredField(v, ActivitySchema, 1);
    var cost := RequiredField(v, ActivitySchema, 2);
    var booking := RequiredField(v, ActivitySchema, 3);
    ActivitySome(v, time, description, cost, booking);
  }

  lemma ActivitySome(v: Value, time: Value, description: Value, cost: Value, booking: Value)
    requires Field(v, "time") == Some(time) && time.String?
    requires Field(v, "description") == Some(description) && description.String?
    requires Field(v, "estimatedCost") == Some(cost) && cost.Number?
    requires Field(v, "bookingNeeded") == Some(booking) && booking.Bool?
    ensures ActivityFromJson(v).Some?
  {
  }

  lemma AccommodationConformsReads(v: Value)
    requires Conforms(v, AccommodationSchema)
    ensures AccommodationFromJson(v).Some?
  {
    var name := RequiredField(v, AccommodationSchema, 0);
    var description := RequiredField(v, AccommodationSchema, 1);
    var cost := RequiredField(v, AccommodationSchema, 2);
    assert name.String? && description.String? && cost.Number?;
  }

  lemma TransportationConformsReads(v: Value)
    requires Conforms(v, TransportationSchema)
    ensures TransportationFromJson(v).Some?
  {
    var r := RequiredField(v, TransportationSchema, 0);
    assert r.String?;
  }

  lemma {:induction false} ActivitiesConformReads(vs: seq<Value>)
    requires forall i :: 0 <= i < |vs| ==> Conforms(vs[i], ActivitySchema)
    ensures ActivitiesFromJson(vs).Some?
  {
    if |vs| > 0 {
      ActivityConformsReads(vs[0]);
      ActivitiesConformReads(vs[1..]);
    }
  }

  lemma {:induction false} AccommodationsConformReads(vs: seq<Value>)
    requires forall i :: 0 <= i < |vs| ==> Conforms(vs[i], AccommodationSchema)
    ensures AccommodationsFromJson(vs).Some?
  {
    if |vs| > 0 {
      AccommodationConformsReads(vs[0]);
      AccommodationsConformReads(vs[1..]);
    }
  }

  lemma DayConformsReads(v: Value)
    requires Conforms(v, DaySchema)
    ensures DayFromJson(v).Some?
  {
    var day := RequiredField(v, DaySchema, 0);
    var title := RequiredField(v, DaySchema, 1);
    var activities := RequiredField(v, DaySchema, 2);
    var cost := RequiredField(v, DaySchema, 3);
    assert Conforms(activities, SArray(ActivitySchema));
    ActivitiesConformReads(activities.items);
    DaySome(v, day, title, activities, cost);
  }

  lemma DaySome(v: Value, day: Value, title: Value, activities: Value, cost: Value)
    requires Field(v, "day") == Some(day) && day.Number?
    requires Field(v, "title") == Some(title) && title.String?
    requires Field(v, "activities") == Some(activities) && activities.Array?
    requires Field(v, "dailyCost") == Some(cost) && cost.Number?
    requires ActivitiesFromJson(activities.items).Some?
    ensures DayFromJson(v).Some?
  {
  }

  lemma {:induction false} DaysConformReads(vs: seq<Value>)
    requires forall i :: 0 <= i < |vs| ==> Conforms(vs[i], DaySchema)
    ensures DaysFromJson(vs).Some?
  {
    if |vs| > 0 {
      DayConformsReads(vs[0]);
      DaysConformReads(vs[1..]);
    }
  }

  /** The schema's required lists cover every field the display reads: a
      value that conforms to the response schema is a plan. */
  lemma ConformingValueIsPlan(v: Value)
    requires Conforms(v, ResponseSchema)
    ensures PlanFromJson(v).Some?
  {
    var title := RequiredField(v, ResponseSchema, 0);
    var total := RequiredField(v, ResponseSchema, 1);
    var accommodation := RequiredField(v, ResponseSchema, 2);
    var transportation := RequiredField(v, ResponseSchema, 3);
    var days := RequiredField(v, ResponseSchema, 4);
    PartsRead(v, title, total, accommodation, transportation, days);
  }

  lemma PartsRead(v: Value, title: Value, total: Value, accommodation: Value, transportation: Value, days: Value)
    requires Field(v, "tripTitle") == Some(title) && Conforms(title, SString)
    requires Field(v, "totalEstimatedCost") == Some(total) && Conforms(total, SNumber)
    requires Field(v, "accommodation") == Some(accommodation) && Conforms(accommodation, SArray(AccommodationSchema))
    requires Field(v, "transportation") == Some(transportation) && Conforms(transportation, TransportationSchema)
    requires Field(v, "dailyPlans") == Some(days) && Conforms(days, SArray(DaySchema))
    ensures PlanFromJson(v).Some?
  {
    AccommodationsConformReads(accommodation.items);
    TransportationConformsReads(transportation);
    DaysConformReads(days.items);
    PlanSome(v, title, total, accommodation, transportation, days);
  }

  lemma PlanSome(v: Value, title: Value, total: Value, accommodation: Value, transportation: Value, days: Value)
    requires Field(v, "tripTitle") == Some(title) && title.String?
    requires Field(v, "totalEstimatedCost") == Some(total) && total.Number?
    requires Field(v, "accommodation") == Some(accommodation) && accommodation.Array?
    requires Field(v, "transportation") == Some(transportation)
    requires Field(v, "dailyPlans") == Some(days) && days.Array?
    requires AccommodationsFromJson(accommodation.items).Some?
    requires TransportationFromJson(transportation).Some?
    requires DaysFromJson(days.items).Some?
    ensures PlanFromJson(v).Some?
  {
  }

  // ---------------------------------------------------------------------
  // The reply

  const FailureMessage: string := "Failed to parse or generate itinerary from AI response."

  /** What the AI call gave: the reply text, or a failure. */
  datatype Reply = Text(text: string) | CallFailed

  /** The end of `generateItinerary`: the reply is trimmed and parsed, and
      the parsed value is returned as it is, with no check against the
      schema; a failed call or a parse error becomes one error with a
      fixed message. */
  function ParseReply(reply: Reply): (r: Result<Value, string>)
    ensures r.Err? ==> r.error == FailureMessage
    ensures r.Ok? <==> reply.Text? && Parse(Text.Trim(reply.text)).Some?
  {
    match reply
    case CallFailed => Err(FailureMessage)
    case Text(text) =>
      match Parse(Text.Trim(text))
      case None => Err(FailureMessage)
      case Some(v) => Ok(v)
  }

  /** A reply holding the JSON text of a value, with any whitespace
      around it, gives that value back. */
  lemma ReplyRoundTrip(v: Value, before: string, after: string)
    requires WellFormed(v)
    requires Text.AllWhitespace(before) && Text.AllWhitespace(after)
    ensures ParseReply(Text(before + Stringify(v) + after)) == Ok(v)
  {
    StringifyEnds(v);
    Text.TrimAround(before, Stringify(v), after);
    ParseStringify(v);
    ReplyOf(before + Stringify(v) + after, v);
  }

  lemma ReplyOf(text: string, v: Value)
    requires Parse(Text.Trim(text)) == Some(v)
    ensures ParseReply(Text(text)) == Ok(v)
  {
  }

  /** The parsed value is returned without a schema check: any value
      that is not an object, which no plan is, still comes back as the
      result. */
  lemma NoSchemaCheck(v: Value)
    requires WellFormed(v) && !v.Object?
    ensures ParseReply(Text(Stringify(v))) == Ok(v)
    ensures PlanFromJson(v).None?
  {
    ReplyOfStringify(v);
    NotAPlan(v);
  }

  /** The JSON text of a value, as the whole reply, gives that value. */
  lemma ReplyOfStringify(v: Value)
    requires WellFormed(v)
    ensures ParseReply(Text(Stringify(v))) == Ok(v)
  {
    ReplyRoundTrip(v, "", "");
    assert "" + Stringify(v) + "" == Stringify(v);
  }

  lemma NotAPlan(v: Value)
    requires !v.Object?
    ensures PlanFromJson(v).None?
  {
    assert Field(v, "tripTitle").None?;
  }

  /** The text of a value neither starts nor ends with whitespace. */
  lemma StringifyEnds(v: Value)
    ensures var t := Stringify(v);
      |t| > 0 && !Text.IsJsWhitespace(t[0]) && !Text.IsJsWhitespace(t[|t| - 1])
  {
    var t := Stringify(v);
    match v
    case Number(n) =>
      var d := JsNumbers.NatText(if n < 0 then -n else n);
      JsNumbers.DigitIsNotWhitespace(d[|d| - 1]);
      assert t[|t| - 1] == d[|d| - 1];
      if n >= 0 {
        JsNumbers.DigitIsNotWhitespace(d[0]);
        assert t[0] == d[0];
      }
    case String(s) =>
      assert t[0] == '"' && t[|t| - 1] == '"';
    case Array(items) =>
      assert t[0] == '[' && t[|t| - 1] == ']';
    case Object(ms) =>
      assert t[0] == '{' && t[|t| - 1] == '}';
    case _ =>
  }

  /** The JSON object of any plan conforms to the response schema. */
  lemma PlanConforms(p: ItineraryPlan)
    ensures Conforms(PlanToJson(p), ResponseSchema)
  {
    var accs := AccommodationsToJson(p.accommodation);
    forall i | 0 <= i < |accs| ensures Conforms(accs[i], AccommodationSchema) {
      AccommodationConforms(p.accommodation[i]);
    }
    var days := DaysToJson(p.dailyPlans);
    forall i | 0 <= i < |days| ensures Conforms(days[i], DaySchema) {
      DayConforms(p.dailyPlans[i]);
    }
    TransportationConforms(p.transportation);
    var ms, props := PlanToJson(p).members, ResponseSchema.properties;
    assert Conforms(ms[2].value, props[2].schema);
    assert Conforms(ms[4].value, props[4].schema);
    ObjectConforms(ms, props, ResponseSchema.required);
  }

  lemma TransportationConforms(t: TransportationSuggestion)
    ensures Conforms(TransportationToJson(t), TransportationSchema)
  {
    ObjectConforms(TransportationToJson(t).members, TransportationSchema.properties, TransportationSchema.required);
  }

  lemma AccommodationConforms(a: AccommodationSuggestion)
    ensures Conforms(AccommodationToJson(a), AccommodationSchema)
  {
    ObjectConforms(AccommodationToJson(a).members, AccommodationSchema.properties, AccommodationSchema.required);
  }

  lemma ActivityConforms(a: Activity)
    ensures Conforms(ActivityToJson(a), ActivitySchema)
  {
    ObjectConforms(ActivityToJson(a).members, ActivitySchema.properties, ActivitySchema.required);
  }

  lemma DayConforms(d: ItineraryDay)
    ensures Conforms(DayToJson(d), DaySchema)
  {
    var acts := ActivitiesToJson(d.activities);
    forall i | 0 <= i < |acts| ensures Conforms(acts[i], ActivitySchema) {
      ActivityConforms(d.activities[i]);
    }
    var ms, props := DayToJson(d).members, DaySchema.properties;
    assert Conforms(ms[2].value, props[2].schema);
    ObjectConforms(ms, props, DaySchema.required);
  }

  /** Members laid out one per declared property, in order, with distinct
      names and the declared shapes, form a conforming object when every
      property is required. */
  lemma ObjectConforms(ms: seq<Member>, props: seq<Property>, req: seq<string>)
    requires |ms| == |props| && req == Names(props)
    requires forall i :: 0 <= i < |ms| ==> ms[i].key == props[i].name && Conforms(ms[i].value, props[i].schema)
    requires forall i, j :: 0 <= i < j < |props| ==> props[i].name != props[j].name
    ensures Conforms(Object(ms), SObject(props, req))
  {
    forall k | k in req ensures Get(ms, k).Some? {
      var i :| 0 <= i < |req| && req[i] == k;
      assert ms[i].key == k;
    }
  }
}
