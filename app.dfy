/**
 * The request-handling helpers of the web front end: `truncate`, the primary
 * image of a trending product, registration form validation, the input of the
 * recommendations route and the user id check in `load_user`. The database is a
 * map from user id to user (for `load_user`) or the sets of usernames and emails
 * already taken (for `register`).
 */
module App {
  import opened Wrappers
  import opened Text
  import Recommender

  const MinPasswordLength: nat := 8
  const UsernameRequired: string := "Username is required."
  const UsernameTaken: string := "Username already in use."
  const EmailRequired: string := "Email address is required."
  const EmailTaken: string := "Email already registered."
  const PasswordTooShort: string := "Password must be at least 8 characters long."
  const PasswordMismatch: string := "Passwords do not match."

  // ---------------------------------------------------------------------------
  // Template helpers

  /** `truncate`: `text[:length] + "..."` when the text is longer than `length`, else the text. */
  function Truncate(text: string, length: int): (r: string)
    ensures |text| <= length ==> r == text
    ensures |text| > length && length >= 0 ==> |r| == length + 3 && r == text[..length] + "..."
    ensures |text| > length && length < 0 ==> r == text[..Max(0, |text| + length)] + "..."
  {
    if |text| > length then Prefix(text, length) + "..." else text
  }

  /** A truncated text is never longer than `length + 3`, and always starts with what it keeps of `text`. */
  lemma TruncateBounds(text: string, length: nat)
    ensures |Truncate(text, length)| <= length + 3
    ensures var r := Truncate(text, length); r == text || (|r| >= 3 && r[..|r| - 3] <= text && r[|r| - 3..] == "...")
  {
    var r := Truncate(text, length);
    if |text| > length {
      assert r[..|r| - 3] == text[..length];
      assert r[|r| - 3..] == "...";
    }
  }

  /**
   * The primary image of a trending product: the `ImageURL` text before the first
   * `|`, stripped; "" for a missing or empty URL.
   */
  function PrimaryImage(imageUrl: Option<string>): (r: string)
    ensures IsStripped(r) && '|' !in r
    ensures imageUrl == None || imageUrl == Some("") ==> r == ""
    ensures imageUrl.Some? ==> |r| <= |imageUrl.value|
  {
    var value := imageUrl.GetOr("");
    if value != "" then
      var first := BeforeFirst(value, '|');
      var r := Strip(first);
      assert forall k :: 0 <= k < |r| ==> r[k] in first by {
        var a := SkipSpaces(first, 0);
        forall k | 0 <= k < |r|
          ensures r[k] in first
        {
          assert r[k] == first[a + k];
        }
      }
      r
    else ""
  }

  /**
   * The first image is recovered from a list of URLs joined by `|`, whatever
   * follows it and whatever whitespace surrounds it; a blank first segment gives "".
   */
  lemma PrimaryImageOfList(p: string, url: string, q: string, rest: string)
    requires IsStripped(url) && '|' !in url
    requires AllSpace(p) && AllSpace(q) && '|' !in p && '|' !in q
    ensures PrimaryImage(Some(p + url + q + "|" + rest)) == url
    ensures PrimaryImage(Some(p + url + q)) == url
  {
    var head := p + url + q;
    assert '|' !in head by {
      forall k | 0 <= k < |head|
        ensures head[k] != '|'
      {
        if k < |p| { assert head[k] == p[k]; }
        else if k < |p| + |url| { assert head[k] == url[k - |p|]; }
        else { assert head[k] == q[k - |p| - |url|]; }
      }
    }
    BeforeFirstStopsAtSeparator(head, rest);
    BeforeFirstStopsAtSeparator(head, []);
    StripPadded(p, url, q);
  }

  /** `(head + "|" + rest).split("|")[0] == head`, and a text without `|` splits to itself. */
  lemma {:induction false} BeforeFirstStopsAtSeparator(head: string, rest: string)
    requires '|' !in head
    ensures BeforeFirst(head + "|" + rest, '|') == head
    ensures BeforeFirst(head, '|') == head
  {
    if head != [] {
      assert head[0] in head;
      assert (head + "|" + rest)[1..] == head[1..] + "|" + rest;
      BeforeFirstStopsAtSeparator(head[1..], rest);
    }
  }

  // ---------------------------------------------------------------------------
  // Form input

  /** `request.form.get(key, "")`. */
  function FormGet(form: map<string, string>, key: string): (v: string)
    ensures key !in form ==> v == ""
    ensures key in form ==> v == form[key]
  {
    if key in form then form[key] else ""
  }

  /** A user about to be created: the cleaned username and email and the raw password (hashed when stored). */
  datatype NewUser = NewUser(username: string, email: string, password: string)

  /**
   * `register`'s validation. A GET shows the empty form. A POST strips the
   * username, strips and lower-cases the email, records at most one error per
   * field (the emptiness check before the uniqueness check, the length check
   * before the confirmation check) and creates the user exactly when no error was
   * recorded. A created user is always new, with a non-empty name and email and a
   * confirmed password of at least eight characters.
   */
  method Register(isPost: bool, form: map<string, string>, usernames: set<string>, emails: set<string>)
    returns (formData: map<string, string>, errors: map<string, string>, created: Option<NewUser>)
    ensures !isPost ==> formData == map["username" := "", "email" := ""] && errors == map[] && created == None
    ensures isPost ==>
      formData == map["username" := Strip(FormGet(form, "username")), "email" := Normalize(FormGet(form, "email"))]
    ensures "username" in errors <==> isPost && (formData["username"] == "" || formData["username"] in usernames)
    ensures "username" in errors ==>
      errors["username"] == if formData["username"] == "" then UsernameRequired else UsernameTaken
    ensures "email" in errors <==> isPost && (formData["email"] == "" || formData["email"] in emails)
    ensures "email" in errors ==>
      errors["email"] == if formData["email"] == "" then EmailRequired else EmailTaken
    ensures "password" in errors <==> isPost && |FormGet(form, "password")| < MinPasswordLength
    ensures "password" in errors ==> errors["password"] == PasswordTooShort
    ensures "confirm_password" in errors <==>
      isPost && |FormGet(form, "password")| >= MinPasswordLength && FormGet(form, "password") != FormGet(form, "confirm_password")
    ensures "confirm_password" in errors ==> errors["confirm_password"] == PasswordMismatch
    ensures errors.Keys <= {"username", "email", "password", "confirm_password"}
    ensures created.Some? <==> isPost && errors == map[]
    ensures created.Some? ==>
      && created.value == NewUser(formData["username"], formData["email"], FormGet(form, "password"))
      && created.value.username != "" && created.value.username !in usernames
      && created.value.email != "" && created.value.email !in emails
      && |created.value.password| >= MinPasswordLength && created.value.password == FormGet(form, "confirm_password")
  {
    formData := map["username" := "", "email" := ""];
    errors := map[];
    created := None;
    if isPost {
      formData := formData["username" := Strip(FormGet(form, "username"))];
      StripLowerCommute(FormGet(form, "email"));
      formData := formData["email" := Lower(Strip(FormGet(form, "email")))];
      var password := FormGet(form, "password");
      var confirmPassword := FormGet(form, "confirm_password");

      if formData["username"] == "" {
        errors := errors["username" := UsernameRequired];
      } else if formData["username"] in usernames {
        errors := errors["username" := UsernameTaken];
      }

      if formData["email"] == "" {
        errors := errors["email" := EmailRequired];
      } else if formData["email"] in emails {
        errors := errors["email" := EmailTaken];
      }

      if |password| < MinPasswordLength {
        errors := errors["password" := PasswordTooShort];
      } else if password != confirmPassword {
        errors := errors["confirm_password" := PasswordMismatch];
      }

      if errors == map[] {
        created := Some(NewUser(formData["username"], formData["email"], password));
      }
    }
  }

  /** What the recommendations route passes on: the stripped product name and the number of results. */
  datatype RecommendationRequest = RecommendationRequest(productName: string, topN: int)

  /**
   * The input of the recommendations route: `prod` stripped, and `int(nbr)`,
   * falling back to the default when `nbr` is missing or is not an integer.
   */
  function ReadRecommendationForm(form: map<string, string>): (req: RecommendationRequest)
    ensures IsStripped(req.productName) && |req.productName| <= |FormGet(form, "prod")|
    ensures "nbr" !in form ==> req.topN == Recommender.DefaultTopN
    ensures "nbr" in form ==> req.topN == ParseInt(form["nbr"]).GetOr(Recommender.DefaultTopN)
  {
    var topN := if "nbr" in form then ParseInt(form["nbr"]).GetOr(Recommender.DefaultTopN) else Recommender.DefaultTopN;
    RecommendationRequest(Strip(FormGet(form, "prod")), topN)
  }

  /** The route strips the padding from the product name it is sent. */
  lemma ReadProductName(form: map<string, string>, p: string, name: string, q: string)
    requires AllSpace(p) && AllSpace(q) && IsStripped(name)
    ensures ReadRecommendationForm(form["prod" := p + name + q]).productName == name
  {
    StripPadded(p, name, q);
  }

  /**
   * `nbr` sent as `str(n)` or `"-" + str(n)` reads back as `n` or `-n`; with more
   * than 4300 digits `int()` raises and the default of ten is used.
   */
  lemma ReadTopNumber(form: map<string, string>, n: nat)
    ensures |Decimal(n)| <= IntMaxStrDigits ==> ReadRecommendationForm(form["nbr" := Decimal(n)]).topN == n
    ensures |Decimal(n)| <= IntMaxStrDigits ==> ReadRecommendationForm(form["nbr" := "-" + Decimal(n)]).topN == -(n as int)
    ensures |Decimal(n)| > IntMaxStrDigits ==> ReadRecommendationForm(form["nbr" := Decimal(n)]).topN == 10
    ensures |Decimal(n)| > IntMaxStrDigits ==> ReadRecommendationForm(form["nbr" := "-" + Decimal(n)]).topN == 10
  {
    ParseIntDecimal(n);
    ParseIntNegative(n);
  }

  /**
   * `nbr` padded with the whitespace `int()` skips (space, tab, newline, vertical
   * tab, form feed, carriage return) still reads as its number, unless it has
   * more digits than `int()` converts.
   */
  lemma ReadTopNumberPadded(form: map<string, string>, p: string, n: nat, q: string)
    requires AllIntSpace(p) && AllIntSpace(q)
    ensures |Decimal(n)| <= IntMaxStrDigits ==> ReadRecommendationForm(form["nbr" := p + Decimal(n) + q]).topN == n
    ensures |Decimal(n)| > IntMaxStrDigits ==> ReadRecommendationForm(form["nbr" := p + Decimal(n) + q]).topN == 10
  {
    ParseIntPadded(p, Decimal(n), q);
    ParseDigitRunDecimal(n);
  }

  /** A file, group, record or unit separator around `nbr` makes `int()` fail, so the default of ten is used. */
  lemma ReadTopNumberRejectsSeparator(form: map<string, string>, c: char, n: nat)
    requires '\U{1C}' <= c <= '\U{1F}'
    ensures ReadRecommendationForm(form["nbr" := [c] + Decimal(n)]).topN == 10
    ensures ReadRecommendationForm(form["nbr" := Decimal(n) + [c]]).topN == 10
  {
    ParseIntRejectsSeparator(c, Decimal(n));
  }

  /** `nbr` without a single digit falls back to the default of ten. */
  lemma ReadTopNumberDefault(form: map<string, string>, s: string)
    requires forall i :: 0 <= i < |s| ==> !IsDigit(s[i])
    ensures ReadRecommendationForm(form["nbr" := s]).topN == 10
  {
    ParseIntNeedsDigit(s);
  }

  // ---------------------------------------------------------------------------
  // Sessions

  datatype User = User(id: nat, username: string, email: string)

  /** The `ValueError` `int()` raises in `load_user` for an id of more than 4300 digits; nothing catches it. */
  datatype LoadError = DigitLimitExceeded

  /**
   * `load_user`: the user whose id the session string spells in digits; None for
   * an empty or non-digit string and for an unknown id; an error for a digit
   * string longer than `int()` converts.
   */
  function LoadUser(userId: string, users: map<nat, User>): (r: Result<Option<User>, LoadError>)
    ensures r.Err? <==> IsDigits(userId) && |userId| > IntMaxStrDigits
    ensures r.Ok? && r.value.Some? <==>
      IsDigits(userId) && |userId| <= IntMaxStrDigits && DigitsValue(userId) in users
    ensures r.Ok? && r.value.Some? ==> r.value.value == users[DigitsValue(userId)]
  {
    if userId != "" && IsDigits(userId) then
      ParseIntDigits(userId);
      match ParseInt(userId)
      case None => Err(DigitLimitExceeded)
      case Some(id) => if id >= 0 && id as nat in users then Ok(Some(users[id as nat])) else Ok(None)
    else Ok(None)
  }

  /** The id a session stores as `str(id)` loads that user back, unless it has more digits than `int()` converts. */
  lemma LoadUserRoundTrip(n: nat, users: map<nat, User>)
    ensures |Decimal(n)| <= IntMaxStrDigits && n in users ==> LoadUser(Decimal(n), users) == Ok(Some(users[n]))
    ensures |Decimal(n)| <= IntMaxStrDigits && n !in users ==> LoadUser(Decimal(n), users) == Ok(None)
    ensures |Decimal(n)| > IntMaxStrDigits ==> LoadUser(Decimal(n), users) == Err(DigitLimitExceeded)
  {
    DecimalRoundTrip(n);
  }
}
