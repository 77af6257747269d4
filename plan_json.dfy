/** How an itinerary plan is laid out as a JSON object, and the typed
    reading of a parsed JSON value as a plan. The reading is what the
    display code assumes when it accesses `plan.tripTitle` or
    `plan.dailyPlans`; the application itself stores the parsed value
    without this check. */
module PlanJson {
  import opened Wrappers
  import opened Types
  import opened Json

  /** The value of the first member named `key`. */
  function Get(ms: seq<Member>, key: string): (r: Option<Value>)
    ensures r.None? <==> forall i :: 0 <= i < |ms| ==> ms[i].key != key
  {
    if |ms| == 0 then None
    else if ms[0].key == key then Some(ms[0].value)
    else Get(ms[1..], key)
  }

  /** A property of an object value. */
  function Field(v: Value, key: string): Option<Value>
  {
    if v.Object? then Get(v.members, key) else None
  }

  function StringField(v: Value, key: string): Option<string>
  {
    match Field(v, key)
    case Some(String(s)) => Some(s)
    case _ => None
  }

  function NumberField(v: Value, key: string): Option<int>
  {
    match Field(v, key)
    case Some(Number(n)) => Some(n)
    case _ => None
  }

  function BoolField(v: Value, key: string): Option<bool>
  {
    match Field(v, key)
    case Some(Bool(b)) => Some(b)
    case _ => None
  }

  function ArrayField(v: Value, key: string): Option<seq<Value>>
  {
    match Field(v, key)
    case Some(Array(items)) => Some(items)
    case _ => None
  }

  // ---------------------------------------------------------------------
  // Writing a plan

  function ActivityToJson(a: Activity): Value
  {
    Object([
      Member("time", String(a.time)),
      Member("description", String(a.description)),
      Member("estimatedCost", Number(a.estimatedCost)),
      Member("bookingNeeded", Bool(a.bookingNeeded))])
  }

  function ActivitiesToJson(xs: seq<Activity>): (r: seq<Value>)
    ensures |r| == |xs| && forall i :: 0 <= i < |xs| ==> r[i] == ActivityToJson(xs[i])
  {
    seq(|xs|, i requires 0 <= i < |xs| => ActivityToJson(xs[i]))
  }

  function DayToJson(d: ItineraryDay): Value
  {
    Object([
      Member("day", Number(d.day)),
      Member("title", String(d.title)),
      Member("activities", Array(ActivitiesToJson(d.activities))),
      Member("dailyCost", Number(d.dailyCost))])
  }

  function AccommodationToJson(a: AccommodationSuggestion): Value
  {
    Object([
      Member("name", String(a.name)),
      Member("description", String(a.description)),
      Member("estimatedCostPerNight", Number(a.estimatedCostPerNight))])
  }

  function AccommodationsToJson(xs: seq<AccommodationSuggestion>): (r: seq<Value>)
    ensures |r| == |xs| && forall i :: 0 <= i < |xs| ==> r[i] == AccommodationToJson(xs[i])
  {
    seq(|xs|, i requires 0 <= i < |xs| => AccommodationToJson(xs[i]))
  }

  function DaysToJson(xs: seq<ItineraryDay>): (r: seq<Value>)
    ensures |r| == |xs| && forall i :: 0 <= i < |xs| ==> r[i] == DayToJson(xs[i])
  {
    seq(|xs|, i requires 0 <= i < |xs| => DayToJson(xs[i]))
  }

  function TransportationToJson(t: TransportationSuggestion): Value
  {
    Object([Member("recommendation", String(t.recommendation))])
  }

  /** The JSON object of a plan, keys in declaration order. */
  function PlanToJson(p: ItineraryPlan): Value
  {
    Object([
      Member("tripTitle", String(p.tripTitle)),
      Member("totalEstimatedCost", Number(p.totalEstimatedCost)),
      Member("accommodation", Array(AccommodationsToJson(p.accommodation))),
      Member("transportation", TransportationToJson(p.transportation)),
      Member("dailyPlans", Array(DaysToJson(p.dailyPlans)))])
  }

  // ---------------------------------------------------------------------
  // Reading a plan

  function ActivityFromJson(v: Value): Option<Activity>
  {
    match (StringField(v, "time"), StringField(v, "description"), NumberField(v, "estimatedCost"), BoolField(v, "bookingNeeded"))
    case (Some(time), Some(description), Some(cost), Some(booking)) => Some(Activity(time, description, cost, booking))
    case _ => None
  }

  /** Reads every element as an activity; fails when one element fails. */
  function ActivitiesFromJson(vs: seq<Value>): (r: Option<seq<Activity>>)
    ensures r.Some? ==> |r.value| == |vs|
  {
    if |vs| == 0 then Some([])
    else
      match (ActivityFromJson(vs[0]), ActivitiesFromJson(vs[1..]))
      case (Some(x), Some(xs)) => Some([x] + xs)
      case _ => None
  }

  function DayFromJson(v: Value): Option<ItineraryDay>
  {
    match (NumberField(v, "day"), StringField(v, "title"), ArrayField(v, "activities"), NumberField(v, "dailyCost"))
    case (Some(day), Some(title), Some(items), Some(cost)) =>
      (match ActivitiesFromJson(items)
       case Some(activities) => Some(ItineraryDay(day, title, activities, cost))
       case None => None)
    case _ => None
  }

  function AccommodationFromJson(v: Value): Option<AccommodationSuggestion>
  {
    match (StringField(v, "name"), StringField(v, "description"), NumberField(v, "estimatedCostPerNight"))
    case (Some(name), Some(description), Some(cost)) => Some(AccommodationSuggestion(name, description, cost))
    case _ => None
  }

  function TransportationFromJson(v: Value): Option<TransportationSuggestion>
  {
    match StringField(v, "recommendation")
    case Some(r) => Some(TransportationSuggestion(r))
    case None => None
  }

  function AccommodationsFromJson(vs: seq<Value>): (r: Option<seq<AccommodationSuggestion>>)
    ensures r.Some? ==> |r.value| == |vs|
  {
    if |vs| == 0 then Some([])
    else
      match (AccommodationFromJson(vs[0]), AccommodationsFromJson(vs[1..]))
      case (Some(x), Some(xs)) => Some([x] + xs)
      case _ => None
  }

  function DaysFromJson(vs: seq<Value>): (r: Option<seq<ItineraryDay>>)
    ensures r.Some? ==> |r.value| == |vs|
  {
    if |vs| == 0 then Some([])
    else
      match (DayFromJson(vs[0]), DaysFromJson(vs[1..]))
      case (Some(x), Some(xs)) => Some([x] + xs)
      case _ => None
  }

  /** The typed reading of a value as a plan: every field present with the
      right kind of value; members with other keys are ignored. */
  function PlanFromJson(v: Value): Option<ItineraryPlan>
  {
    match (StringField(v, "tripTitle"), NumberField(v, "totalEstimatedCost"), ArrayField(v, "accommodation"), Field(v, "transportation"), ArrayField(v, "dailyPlans"))
    case (Some(title), Some(total), Some(acc), Some(tr), Some(days)) =>
      (match (AccommodationsFromJson(acc), TransportationFromJson(tr), DaysFromJson(days))
       case (Some(accommodation), Some(transportation), Some(dailyPlans)) =>
         Some(ItineraryPlan(title, total, accommodation, transportation, dailyPlans))
       case _ => None)
    case _ => None
  }

  // ---------------------------------------------------------------------
  // Round trip and well-formedness

  /** The member at `i` is the first one with its key. */
  lemma {:induction false} GetAt(ms: seq<Member>, i: nat)
    requires i < |ms|
    requires forall j :: 0 <= j < i ==> ms[j].key != ms[i].key
    ensures Get(ms, ms[i].key) == Some(ms[i].value)
  {
    if i > 0 {
      GetAt(ms[1..], i - 1);
    }
  }

  /** Looking up each key of up to five members with distinct keys. */
  lemma FiveMembers(m0: Member, m1: Member, m2: Member, m3: Member, m4: Member)
    requires m0.key != m1.key && m0.key != m2.key && m0.key != m3.key && m0.key != m4.key
    requires m1.key != m2.key && m1.key != m3.key && m1.key != m4.key
    requires m2.key != m3.key && m2.key != m4.key && m3.key != m4.key
    ensures var ms := [m0, m1, m2, m3, m4];
      && Get(ms, m0.key) == Some(m0.value) && Get(ms, m1.key) == Some(m1.value)
      && Get(ms, m2.key) == Some(m2.value) && Get(ms, m3.key) == Some(m3.value)
      && Get(ms, m4.key) == Some(m4.value)
  {
    var ms := [m0, m1, m2, m3, m4];
    GetAt(ms, 0);
    GetAt(ms, 1);
    GetAt(ms, 2);
    GetAt(ms, 3);
    GetAt(ms, 4);
  }

  lemma FourMembers(m0: Member, m1: Member, m2: Member, m3: Member)
    requires m0.key != m1.key && m0.key != m2.key && m0.key != m3.key
    requires m1.key != m2.key && m1.key != m3.key && m2.key != m3.key
    ensures var ms := [m0, m1, m2, m3];
      && Get(ms, m0.key) == Some(m0.value) && Get(ms, m1.key) == Some(m1.value)
      && Get(ms, m2.key) == Some(m2.value) && Get(ms, m3.key) == Some(m3.value)
  {
    var ms := [m0, m1, m2, m3];
    GetAt(ms, 0);
    GetAt(ms, 1);
    GetAt(ms, 2);
    GetAt(ms, 3);
  }

  lemma ThreeMembers(m0: Member, m1: Member, m2: Member)
    requires m0.key != m1.key && m0.key != m2.key && m1.key != m2.key
    ensures var ms := [m0, m1, m2];
      && Get(ms, m0.key) == Some(m0.value) && Get(ms, m1.key) == Some(m1.value)
      && Get(ms, m2.key) == Some(m2.value)
  {
    var ms := [m0, m1, m2];
    GetAt(ms, 0);
    GetAt(ms, 1);
    GetAt(ms, 2);
  }

  lemma ActivityRoundTrip(a: Activity)
    ensures ActivityFromJson(ActivityToJson(a)) == Some(a)
  {
    FourMembers(
      Member("time", String(a.time)),
      Member("description", String(a.description)),
      Member("estimatedCost", Number(a.estimatedCost)),
      Member("bookingNeeded", Bool(a.bookingNeeded)));
  }

  lemma AccommodationRoundTrip(a: AccommodationSuggestion)
    ensures AccommodationFromJson(AccommodationToJson(a)) == Some(a)
  {
    ThreeMembers(
      Member("name", String(a.name)),
      Member("description", String(a.description)),
      Member("estimatedCostPerNight", Number(a.estimatedCostPerNight)));
  }

  lemma DayRoundTrip(d: ItineraryDay)
    ensures DayFromJson(DayToJson(d)) == Some(d)
  {
    var v := DayToJson(d);
    var items := ActivitiesToJson(d.activities);
    FourMembers(
      Member("day", Number(d.day)),
      Member("title", String(d.title)),
      Member("activities", Array(items)),
      Member("dailyCost", Number(d.dailyCost)));
    ActivitiesRoundTrip(d.activities);
    DayFromFields(v, d, items);
  }

  lemma DayFromFields(v: Value, d: ItineraryDay, items: seq<Value>)
    requires NumberField(v, "day") == Some(d.day) && StringField(v, "title") == Some(d.title)
    requires ArrayField(v, "activities") == Some(items) && NumberField(v, "dailyCost") == Some(d.dailyCost)
    requires ActivitiesFromJson(items) == Some(d.activities)
    ensures DayFromJson(v) == Some(d)
  {
  }

  lemma {:induction false} ActivitiesRoundTrip(xs: seq<Activity>)
    ensures ActivitiesFromJson(ActivitiesToJson(xs)) == Some(xs)
  {
    if |xs| > 0 {
      ActivityRoundTrip(xs[0]);
      ActivitiesRoundTrip(xs[1..]);
      assert ActivitiesToJson(xs)[1..] == ActivitiesToJson(xs[1..]);
      assert [xs[0]] + xs[1..] == xs;
    }
  }

  lemma {:induction false} AccommodationsRoundTrip(xs: seq<AccommodationSuggestion>)
    ensures AccommodationsFromJson(AccommodationsToJson(xs)) == Some(xs)
  {
    if |xs| > 0 {
      AccommodationRoundTrip(xs[0]);
      AccommodationsRoundTrip(xs[1..]);
      assert AccommodationsToJson(xs)[1..] == AccommodationsToJson(xs[1..]);
      assert [xs[0]] + xs[1..] == xs;
    }
  }

  lemma {:induction false} DaysRoundTrip(xs: seq<ItineraryDay>)
    ensures DaysFromJson(DaysToJson(xs)) == Some(xs)
  {
    if |xs| > 0 {
      DayRoundTrip(xs[0]);
      DaysRoundTrip(xs[1..]);
      assert DaysToJson(xs)[1..] == DaysToJson(xs[1..]);
      assert [xs[0]] + xs[1..] == xs;
    }
  }

  /** Reading the JSON object of a plan gives the plan back. */
  lemma PlanRoundTrip(p: ItineraryPlan)
    ensures PlanFromJson(PlanToJson(p)) == Some(p)
  {
    var tr := TransportationToJson(p.transportation);
    PlanFields(p);
    assert TransportationFromJson(tr) == Some(p.transportation) by { GetAt(tr.members, 0); }
    AccommodationsRoundTrip(p.accommodation);
    DaysRoundTrip(p.dailyPlans);
    PlanFromFields(PlanToJson(p), p, AccommodationsToJson(p.accommodation), tr, DaysToJson(p.dailyPlans));
  }

  lemma PlanFields(p: ItineraryPlan)
    ensures var v := PlanToJson(p);
      && StringField(v, "tripTitle") == Some(p.tripTitle)
      && NumberField(v, "totalEstimatedCost") == Some(p.totalEstimatedCost)
      && ArrayField(v, "accommodation") == Some(AccommodationsToJson(p.accommodation))
      && Field(v, "transportation") == Some(TransportationToJson(p.transportation))
      && ArrayField(v, "dailyPlans") == Some(DaysToJson(p.dailyPlans))
  {
    FiveMembers(
      Member("tripTitle", String(p.tripTitle)),
      Member("totalEstimatedCost", Number(p.totalEstimatedCost)),
      Member("accommodation", Array(AccommodationsToJson(p.accommodation))),
      Member("transportation", TransportationToJson(p.transportation)),
      Member("dailyPlans", Array(DaysToJson(p.dailyPlans))));
  }

  lemma PlanFromFields(v: Value, p: ItineraryPlan, accs: seq<Value>, tr: Value, days: seq<Value>)
    requires StringField(v, "tripTitle") == Some(p.tripTitle)
    requires NumberField(v, "totalEstimatedCost") == Some(p.totalEstimatedCost)
    requires ArrayField(v, "accommodation") == Some(accs) && Field(v, "transportation") == Some(tr)
    requires ArrayField(v, "dailyPlans") == Some(days)
    requires TransportationFromJson(tr) == Some(p.transportation)
    requires AccommodationsFromJson(accs) == Some(p.accommodation)
    requires DaysFromJson(days) == Some(p.dailyPlans)
    ensures PlanFromJson(v) == Some(p)
  {
  }

  /** The JSON object of a plan has distinct keys at every level, so it is
      a value `JSON.parse` can return. */
  lemma PlanToJsonWellFormed(p: ItineraryPlan)
    ensures WellFormed(PlanToJson(p))
  {
    var days := DaysToJson(p.dailyPlans);
    forall i | 0 <= i < |days| ensures WellFormed(days[i]) {
      DayToJsonWellFormed(p.dailyPlans[i]);
    }
    assert WellFormed(Array(days));
    assert WellFormed(Array(AccommodationsToJson(p.accommodation)));
    assert WellFormed(TransportationToJson(p.transportation));
    var v := PlanToJson(p);
    assert DistinctKeys(v.members);
    assert forall i | 0 <= i < |v.members| :: WellFormed(v.members[i].value);
  }

  lemma DayToJsonWellFormed(d: ItineraryDay)
    ensures WellFormed(DayToJson(d))
  {
    assert WellFormed(Array(ActivitiesToJson(d.activities)));
  }
}
