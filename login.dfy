/** The sign-in screen: three fields, a blank check, the e-mail pattern
    `/\S+@\S+\.\S+/` and the user record handed to the auth context. */
module Login {
  import opened Wrappers
  import Text
  import opened Types
  import opened I18n

  /** `RegExp.prototype.test` for `/\S+@\S+\.\S+/`: unanchored, so some
      slice `s[b..e]` is a run of non-whitespace, an `@`, a run of
      non-whitespace, a `.` and a run of non-whitespace (the runs may
      themselves hold `@` and `.`). */
  ghost predicate MatchesEmailPattern(s: string)
  {
    exists b, at, dot, e :: PatternAt(s, b, at, dot, e)
  }

  /** The pattern matches the slice `s[b..e]`, its `@` at `at` and its
      `.` at `dot`. */
  predicate PatternAt(s: string, b: int, at: int, dot: int, e: int)
  {
    && 0 <= b < at && at + 1 < dot && dot + 1 < e <= |s|
    && Text.NoWhitespace(s[b..at]) && s[at] == '@'
    && Text.NoWhitespace(s[at + 1..dot]) && s[dot] == '.'
    && Text.NoWhitespace(s[dot + 1..e])
  }

  /** The local form of the same test: an `@` with a non-whitespace
      character before it, then a `.` with a non-whitespace character after
      it, and only non-whitespace (at least one character) between them. */
  predicate EmailShape(s: string)
  {
    exists at, dot | 0 < at < |s| && 0 < dot < |s| :: ShapeAt(s, at, dot)
  }

  /** The local conditions at an `@` and a `.`. */
  predicate ShapeAt(s: string, at: int, dot: int)
  {
    && 0 < at && at + 1 < dot && dot + 1 < |s|
    && s[at] == '@' && s[dot] == '.'
    && !Text.IsJsWhitespace(s[at - 1]) && !Text.IsJsWhitespace(s[dot + 1])
    && Text.NoWhitespace(s[at + 1..dot])
  }

  lemma ShapeGivesPattern(s: string, at: int, dot: int)
    requires ShapeAt(s, at, dot)
    ensures MatchesEmailPattern(s)
  {
    assert Text.NoWhitespace(s[at - 1..at]);
    assert Text.NoWhitespace(s[dot + 1..dot + 2]);
    assert PatternAt(s, at - 1, at, dot, dot + 2);
  }

  lemma PatternGivesShape(s: string, b: int, at: int, dot: int, e: int)
    requires PatternAt(s, b, at, dot, e)
    ensures EmailShape(s)
  {
    assert s[b..at][at - 1 - b] == s[at - 1];
    assert s[dot + 1..e][0] == s[dot + 1];
    assert ShapeAt(s, at, dot);
  }

  /** The local form and the pattern accept the same strings. */
  lemma EmailShapeIsPattern(s: string)
    ensures EmailShape(s) <==> MatchesEmailPattern(s)
  {
    if EmailShape(s) {
      var at, dot :| ShapeAt(s, at, dot);
      ShapeGivesPattern(s, at, dot);
    }
    if MatchesEmailPattern(s) {
      var b, at, dot, e :| PatternAt(s, b, at, dot, e);
      PatternGivesShape(s, b, at, dot, e);
    }
  }

  /** An address with nothing after its last dot is refused. */
  lemma NothingAfterDot()
    ensures !EmailShape("a@b.")
    ensures !EmailShape("a@b")
  {
  }

  /** Because the pattern is unanchored, text around the address is
      allowed. */
  lemma SurroundingTextAllowed()
    ensures EmailShape("x a@b.c y")
  {
    var s := "x a@b.c y";
    assert s[4..5] == "b";
    assert ShapeAt(s, 3, 5);
  }

  datatype LoginError = MissingFields | InvalidEmail

  datatype Outcome = Refuse(error: LoginError) | SignIn(user: User)

  /** `handleSubmit`: a blank field (after trimming) first, then the e-mail
      pattern; on success the untrimmed name and e-mail become the user. */
  function Decide(name: string, email: string, password: string): (r: Outcome)
    ensures r == Refuse(MissingFields) <==>
      Text.AllWhitespace(name) || Text.AllWhitespace(email) || Text.AllWhitespace(password)
    ensures r == Refuse(InvalidEmail) <==>
      !Text.AllWhitespace(name) && !Text.AllWhitespace(email) && !Text.AllWhitespace(password)
      && !MatchesEmailPattern(email)
    ensures r.SignIn? ==> r.user == User(name, email) && MatchesEmailPattern(email)
  {
    Text.TrimEmptyIffAllWhitespace(name);
    Text.TrimEmptyIffAllWhitespace(email);
    Text.TrimEmptyIffAllWhitespace(password);
    EmailShapeIsPattern(email);
    if Text.Trim(name) == [] || Text.Trim(email) == [] || Text.Trim(password) == [] then Refuse(MissingFields)
    else if !EmailShape(email) then Refuse(InvalidEmail)
    else SignIn(User(name, email))
  }

  /** The password only has to be non-blank: no other property of it
      changes the outcome, and it never reaches the user record. */
  lemma PasswordOnlyNeedsContent(name: string, email: string, p: string, q: string)
    requires !Text.AllWhitespace(p) && !Text.AllWhitespace(q)
    ensures Decide(name, email, p) == Decide(name, email, q)
  {
    Text.TrimEmptyIffAllWhitespace(p);
    Text.TrimEmptyIffAllWhitespace(q);
  }

  function ErrorText(o: Outcome, t: Translations): string
  {
    match o
    case Refuse(MissingFields) => t.login_error_all_fields
    case Refuse(InvalidEmail) => t.login_error_invalid_email
    case SignIn(_) => ""
  }

  class LoginForm {
    var name: string
    var email: string
    var password: string
    var error: string

    constructor()
      ensures name == "" && email == "" && password == "" && error == ""
    {
      name := "";
      email := "";
      password := "";
      error := "";
    }

    method EditName(text: string)
      modifies this
      ensures name == text && email == old(email) && password == old(password) && error == old(error)
    {
      name := text;
    }

    method EditEmail(text: string)
      modifies this
      ensures email == text && name == old(name) && password == old(password) && error == old(error)
    {
      email := text;
    }

    method EditPassword(text: string)
      modifies this
      ensures password == text && name == old(name) && email == old(email) && error == old(error)
    {
      password := text;
    }

    /** Sets the error text; the result is the user passed to `login`,
        if any. */
    method Submit(t: Translations) returns (signedIn: Option<User>)
      modifies this
      ensures var o := Decide(old(name), old(email), old(password));
        && error == ErrorText(o, t)
        && (signedIn.Some? <==> o.SignIn?)
        && (signedIn.Some? ==> signedIn.value == User(old(name), old(email)))
      ensures name == old(name) && email == old(email) && password == old(password)
    {
      var o := Decide(name, email, password);
      var message := ErrorText(o, t);
      signedIn := if o.SignIn? then Some(o.user) else None;
      error := message;
    }
  }
}
