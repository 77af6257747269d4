/** The trip form: its fields, the duration clamp, the interest toggle and
    the ordered, first-failure-wins check made on submit. */
module TripForm {
  import opened Wrappers
  import Text
  import opened JsNumbers
  import opened Types
  import opened I18n

  // ---------------------------------------------------------------------
  // Duration

  /** `Math.max(1, parseInt(text, 10) || 1)`: NaN and 0 fall back to 1,
      a negative number is raised to 1, and there is no upper bound. */
  function ClampDuration(text: string): (r: int)
    ensures r >= 1
    ensures ParseInt(text).Some? && ParseInt(text).value >= 1 ==> r == ParseInt(text).value
    ensures ParseInt(text).None? || ParseInt(text).value < 1 ==> r == 1
  {
    var n := match ParseInt(text) case None => 1 case Some(k) => if k == 0 then 1 else k;
    if n > 1 then n else 1
  }

  /** Any positive whole number of days typed in is kept as it is, however
      large. */
  lemma ClampKeepsTypedDays(n: int)
    requires n >= 1
    ensures ClampDuration(IntText(n)) == n
  {
    ParseIntOfIntText(n);
  }

  // ---------------------------------------------------------------------
  // Interests

  /** `xs.filter(i => i !== x)`. */
  function Without(xs: seq<string>, x: string): (r: seq<string>)
    ensures x !in r
    ensures multiset(r) == multiset(xs)[x := 0]
  {
    if |xs| == 0 then []
    else
      assert xs == [xs[0]] + xs[1..];
      if xs[0] == x then Without(xs[1..], x) else [xs[0]] + Without(xs[1..], x)
  }

  /** Filtering works piece by piece, so the entries that stay keep their
      order. */
  lemma {:induction false} WithoutConcat(a: seq<string>, b: seq<string>, x: string)
    ensures Without(a + b, x) == Without(a, x) + Without(b, x)
  {
    if |a| > 0 {
      assert (a + b)[1..] == a[1..] + b;
      WithoutConcat(a[1..], b, x);
    } else {
      assert a + b == b;
    }
  }

  lemma {:induction false} WithoutAbsent(xs: seq<string>, x: string)
    requires x !in xs
    ensures Without(xs, x) == xs
  {
    if |xs| > 0 {
      WithoutAbsent(xs[1..], x);
      assert [xs[0]] + xs[1..] == xs;
    }
  }

  /** The interest toggle: an absent interest is appended, a present one
      is removed with all its repeats. */
  function Toggle(xs: seq<string>, x: string): (r: seq<string>)
    ensures x in r <==> x !in xs
    ensures forall y :: y != x ==> multiset(r)[y] == multiset(xs)[y]
  {
    if x in xs then Without(xs, x) else xs + [x]
  }

  /** Toggling an absent interest appends it at the end. */
  lemma ToggleAppends(xs: seq<string>, x: string)
    requires x !in xs
    ensures Toggle(xs, x) == xs + [x]
  {
  }

  /** Toggling a present interest removes every occurrence; whatever the
      list is cut into, each part keeps its other entries in order. */
  lemma ToggleRemovesAll(a: seq<string>, b: seq<string>, x: string)
    requires x in a + b
    ensures Toggle(a + b, x) == Without(a, x) + Without(b, x)
    ensures x !in Toggle(a + b, x)
  {
    WithoutConcat(a, b, x);
  }

  /** Toggling the same interest twice gives back a list that lacked it. */
  lemma ToggleTwice(xs: seq<string>, x: string)
    requires x !in xs
    ensures Toggle(Toggle(xs, x), x) == xs
  {
    WithoutConcat(xs, [x], x);
    WithoutAbsent(xs, x);
  }

  predicate NoDuplicates(xs: seq<string>)
  {
    forall i, j :: 0 <= i < j < |xs| ==> xs[i] != xs[j]
  }

  /** Toggling keeps a list free of repeats. */
  lemma ToggleKeepsNoDuplicates(xs: seq<string>, x: string)
    requires NoDuplicates(xs)
    ensures NoDuplicates(Toggle(xs, x))
  {
    var r := Toggle(xs, x);
    forall i, j | 0 <= i < j < |r| ensures r[i] != r[j] {
      if r[i] == r[j] {
        assert multiset(r)[r[i]] >= 2 by {
          assert r == r[..i] + [r[i]] + r[i + 1..j] + [r[j]] + r[j + 1..];
        }
        if r[i] != x {
          CountAtMostOne(xs, r[i]);
        }
      }
    }
  }

  lemma {:induction false} CountAtMostOne(xs: seq<string>, y: string)
    requires NoDuplicates(xs)
    ensures multiset(xs)[y] <= 1
  {
    if |xs| > 0 {
      CountAtMostOne(xs[1..], y);
      assert xs == [xs[0]] + xs[1..];
      if xs[0] == y {
        assert y !in xs[1..];
      }
    }
  }

  // ---------------------------------------------------------------------
  // Submitting

  const MinimumBudget: real := 500.0

  datatype FormError = MissingFields | BudgetTooLow

  datatype Decision = Reject(error: FormError) | Send(prefs: FormPreferences)

  /** `!destination.trim() || interests.length === 0`. */
  predicate MissingRequired(destination: string, interests: seq<string>)
  {
    Text.Trim(destination) == [] || |interests| == 0
  }

  /** `isNaN(budgetValue) || budgetValue < 500`. */
  predicate BudgetRejected(budget: string)
  {
    ParseFloat(budget).None? || LessThan(ParseFloat(budget).value, MinimumBudget)
  }

  /** The submit check: the destination and interests first, then the
      budget; on success the form's values go out as they are, the
      destination untrimmed and the budget parsed. */
  function Decide(destination: string, duration: int, budget: string, interests: seq<string>): (r: Decision)
    ensures r == Reject(MissingFields) <==> Text.AllWhitespace(destination) || |interests| == 0
    ensures r == Reject(BudgetTooLow) <==> !MissingRequired(destination, interests) && BudgetRejected(budget)
    ensures r.Send? ==> ParseFloat(budget).Some? && !LessThan(ParseFloat(budget).value, MinimumBudget)
    ensures r.Send? ==> r.prefs == FormPreferences(destination, duration, ParseFloat(budget).value, interests)
  {
    Text.TrimEmptyIffAllWhitespace(destination);
    if MissingRequired(destination, interests) then Reject(MissingFields)
    else if BudgetRejected(budget) then Reject(BudgetTooLow)
    else Send(FormPreferences(destination, duration, ParseFloat(budget).value, interests))
  }

  /** A budget typed as a whole number is refused exactly when it is below
      500; 500 itself is accepted. */
  lemma WholeBudgetBoundary(destination: string, duration: int, n: nat, interests: seq<string>)
    requires !Text.AllWhitespace(destination) && |interests| > 0
    ensures Decide(destination, duration, NatText(n), interests).Send? <==> n >= 500
    ensures n >= 500 ==> Decide(destination, duration, NatText(n), interests).prefs.budget == Finite(n as real)
  {
    ParseFloatOfNatText(n);
    Text.TrimEmptyIffAllWhitespace(destination);
  }

  /** The error text the form shows for a decision. */
  function ErrorText(d: Decision, t: Translations): string
  {
    match d
    case Reject(MissingFields) => t.form_error
    case Reject(BudgetTooLow) => t.form_budget_error_min
    case Send(_) => ""
  }

  // ---------------------------------------------------------------------
  // The form

  class TripFormState {
    var destination: string
    var duration: int
    var budget: string
    var interests: seq<string>
    var error: string

    /** The duration field never drops below one day. */
    predicate Valid()
      reads this
    {
      duration >= 1
    }

    constructor()
      ensures Valid()
      ensures destination == "" && duration == 5 && budget == "5000" && interests == [] && error == ""
    {
      destination := "";
      duration := 5;
      budget := "5000";
      interests := [];
      error := "";
    }

    method EditDestination(text: string)
      requires Valid()
      modifies this
      ensures Valid()
      ensures destination == text
      ensures duration == old(duration) && budget == old(budget) && interests == old(interests) && error == old(error)
    {
      destination := text;
    }

    method EditDuration(text: string)
      requires Valid()
      modifies this
      ensures Valid()
      ensures duration == ClampDuration(text)
      ensures destination == old(destination) && budget == old(budget) && interests == old(interests) && error == old(error)
    {
      duration := ClampDuration(text);
    }

    method EditBudget(text: string)
      requires Valid()
      modifies this
      ensures Valid()
      ensures budget == text
      ensures destination == old(destination) && duration == old(duration) && interests == old(interests) && error == old(error)
    {
      budget := text;
    }

    method ToggleInterest(interest: string)
      requires Valid()
      modifies this
      ensures Valid()
      ensures interests == Toggle(old(interests), interest)
      ensures destination == old(destination) && duration == old(duration) && budget == old(budget) && error == old(error)
    {
      interests := Toggle(interests, interest);
    }

    /** `handleSubmit`: sets the error text and, when the check passes,
        hands the preferences to `onGenerate` (the result). */
    method Submit(t: Translations) returns (sent: Option<FormPreferences>)
      requires Valid()
      modifies this
      ensures Valid()
      ensures var d := Decide(old(destination), old(duration), old(budget), old(interests));
        && error == ErrorText(d, t)
        && (sent.Some? <==> d.Send?)
        && (sent.Some? ==> sent.value == d.prefs && sent.value.duration >= 1)
      ensures destination == old(destination) && duration == old(duration) && budget == old(budget) && interests == old(interests)
    {
      var d := Decide(destination, duration, budget, interests);
      var message := ErrorText(d, t);
      sent := if d.Send? then Some(d.prefs) else None;
      error := message;
    }
  }
}
