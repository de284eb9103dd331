/** The registration endpoint (`POST /api/auth/register`): the body's fields are
    checked in a fixed order (all present, email shape, password length) before the
    user store is asked to register the user. The store itself is not modelled: what it
    answered is a parameter (`None` for success, or the message it threw). */
module RegisterRoute {
  import opened Wrappers
  import JsText

  /** The request body: JSON that could not be read (with the parser's message), or a
      JSON object with its `email`, `password` and `name` fields (absent is None). Only
      string values are modelled. */
  datatype Request =
    | Unreadable(message: string)
    | Body(email: Option<string>, password: Option<string>, name: Option<string>)

  datatype ResponseBody = ErrorBody(error: string) | SuccessBody(message: string)

  datatype Response = Response(status: int, body: ResponseBody)

  /** The response, and whether `registerUser` was called. */
  datatype Handled = Handled(response: Response, attempted: bool)

  const RequiredMessage := "Email, password, and name are required"
  const InvalidEmailMessage := "Invalid email format"
  const ShortPasswordMessage := "Password must be at least 6 characters"
  const FallbackMessage := "Registration failed"
  const MinPasswordLength := 6

  /** A field is truthy: present and not the empty string. */
  predicate Truthy(f: Option<string>) {
    f.Some? && f.value != ""
  }

  /** `[^\s@]+` without the `+`: no white space and no `@`. */
  predicate PlainChars(s: string) {
    forall k :: 0 <= k < |s| ==> !JsText.IsJsSpace(s[k]) && s[k] != '@'
  }

  /** The email regex `^[^\s@]+@[^\s@]+\.[^\s@]+$` as a grammar: three non-empty runs of
      plain characters separated by an `@` at `i` and a `.` at `j`. */
  ghost predicate MatchesEmailRegex(s: string) {
    exists i, j :: 0 < i && i + 1 < j && j + 1 < |s| && s[i] == '@' && s[j] == '.' &&
      PlainChars(s[..i]) && PlainChars(s[i + 1..j]) && PlainChars(s[j + 1..])
  }

  /** The position of the first `@`, if any. */
  function FirstAt(s: string): (r: Option<nat>)
    ensures r.Some? ==> r.value < |s| && s[r.value] == '@' && forall k :: 0 <= k < r.value ==> s[k] != '@'
    ensures r.None? ==> forall k :: 0 <= k < |s| ==> s[k] != '@'
  {
    if |s| == 0 then None
    else if s[0] == '@' then Some(0)
    else
      var r := FirstAt(s[1..]);
      if r.Some? then Some(r.value + 1) else None
  }

  /** The email check as a scan: a non-empty local part before the one `@`, no white
      space or second `@` anywhere, and a `.` in the domain with text on both sides. */
  predicate ValidEmail(s: string) {
    var at := FirstAt(s);
    at.Some? && at.value > 0 && PlainChars(s[..at.value]) && PlainChars(s[at.value + 1..]) &&
    exists j | at.value + 1 < j < |s| - 1 :: s[j] == '.'
  }

  /** A slice of a run of plain characters is one. */
  lemma PlainSlice(d: string, a: int, b: int)
    requires 0 <= a <= b <= |d| && PlainChars(d)
    ensures PlainChars(d[a..b])
  {
    forall k | 0 <= k < b - a ensures !JsText.IsJsSpace(d[a..b][k]) && d[a..b][k] != '@' {
      assert d[a..b][k] == d[a + k];
    }
  }

  /** FirstAt finds the `@` at `i` when none comes before it. */
  lemma {:induction false} FirstAtIs(s: string, i: nat)
    requires i < |s| && s[i] == '@' && forall k :: 0 <= k < i ==> s[k] != '@'
    ensures FirstAt(s) == Some(i)
  {
    if i > 0 {
      assert s[0] != '@';
      forall k | 0 <= k < i - 1 ensures s[1..][k] != '@' {
        assert s[1..][k] == s[k + 1];
      }
      FirstAtIs(s[1..], i - 1);
    }
  }

  lemma ValidEmailMatches(s: string)
    requires ValidEmail(s)
    ensures MatchesEmailRegex(s)
  {
    var i := FirstAt(s).value;
    var j :| i + 1 < j < |s| - 1 && s[j] == '.';
    var d := s[i + 1..];
    PlainSlice(d, 0, j - i - 1);
    PlainSlice(d, j - i, |d|);
    assert d[0..j - i - 1] == s[i + 1..j];
    assert d[j - i..|d|] == s[j + 1..];
    assert 0 < i && i + 1 < j && j + 1 < |s| && s[i] == '@' && s[j] == '.' &&
      PlainChars(s[..i]) && PlainChars(s[i + 1..j]) && PlainChars(s[j + 1..]);
  }

  /** Two runs of plain characters around a plain character form one run. */
  lemma PlainJoin(a: string, c: char, b: string)
    requires PlainChars(a) && PlainChars(b) && !JsText.IsJsSpace(c) && c != '@'
    ensures PlainChars(a + [c] + b)
  {
    var d := a + [c] + b;
    forall k | 0 <= k < |d| ensures !JsText.IsJsSpace(d[k]) && d[k] != '@' {
      if k < |a| { assert d[k] == a[k]; }
      else if k > |a| { assert d[k] == b[k - |a| - 1]; }
    }
  }

  lemma MatchesValidEmail(s: string)
    requires MatchesEmailRegex(s)
    ensures ValidEmail(s)
  {
    var i, j :| 0 < i && i + 1 < j && j + 1 < |s| && s[i] == '@' && s[j] == '.' &&
      PlainChars(s[..i]) && PlainChars(s[i + 1..j]) && PlainChars(s[j + 1..]);
    MatchAtIsValid(s, i, j);
  }

  /** The regex's split at `i` and `j` passes the scan. */
  lemma MatchAtIsValid(s: string, i: nat, j: nat)
    requires 0 < i && i + 1 < j && j + 1 < |s| && s[i] == '@' && s[j] == '.'
    requires PlainChars(s[..i]) && PlainChars(s[i + 1..j]) && PlainChars(s[j + 1..])
    ensures ValidEmail(s)
  {
    assert forall k :: 0 <= k < i ==> s[k] != '@' by {
      forall k | 0 <= k < i ensures s[k] != '@' {
        assert s[k] == s[..i][k];
      }
    }
    FirstAtIs(s, i);
    assert PlainChars(s[i + 1..]) by {
      PlainJoin(s[i + 1..j], s[j], s[j + 1..]);
      assert s[i + 1..] == s[i + 1..j] + [s[j]] + s[j + 1..];
    }
  }

  /** The scan accepts exactly the strings the regex matches. */
  lemma ValidEmailIffRegex(s: string)
    ensures ValidEmail(s) <==> MatchesEmailRegex(s)
  {
    if ValidEmail(s) { ValidEmailMatches(s); }
    if MatchesEmailRegex(s) { MatchesValidEmail(s); }
  }

  /** An accepted email has no white space and exactly one `@`. */
  lemma ValidEmailOneAt(s: string)
    requires ValidEmail(s)
    ensures forall k :: 0 <= k < |s| ==> !JsText.IsJsSpace(s[k])
    ensures exists i :: 0 <= i < |s| && s[i] == '@' && forall k :: 0 <= k < |s| && k != i ==> s[k] != '@'
  {
    var i := FirstAt(s).value;
    forall k | 0 <= k < |s| ensures !JsText.IsJsSpace(s[k]) && (k != i ==> s[k] != '@') {
      if k < i { assert s[k] == s[..i][k]; }
      else if k > i { assert s[k] == s[i + 1..][k - i - 1]; }
    }
  }

  /** The error message a thrown error produces: its message, or a default when empty. */
  function ThrownMessage(message: string): (m: string)
    ensures m != "" && (message != "" ==> m == message)
  {
    if message != "" then message else FallbackMessage
  }

  function BadRequest(error: string): Response {
    Response(400, ErrorBody(error))
  }

  /** `POST`. `registered` is what `registerUser` did: None when it returned, or the
      message of the error it threw. */
  function Post(req: Request, registered: Option<string>): (h: Handled)
    ensures h.response.status == 200 || h.response.status == 400
    ensures h.response.status == 200 <==> h.attempted && registered.None?
    ensures h.response.status == 400 ==> h.response.body.ErrorBody? && h.response.body.error != ""
    ensures h.attempted ==> req.Body?
  {
    match req
    case Unreadable(m) => Handled(BadRequest(ThrownMessage(m)), false)
    case Body(email, password, name) =>
      if !Truthy(email) || !Truthy(password) || !Truthy(name) then
        Handled(BadRequest(RequiredMessage), false)
      else if !ValidEmail(email.value) then
        Handled(BadRequest(InvalidEmailMessage), false)
      else if JsText.JsLength(password.value) < MinPasswordLength then
        Handled(BadRequest(ShortPasswordMessage), false)
      else if registered.Some? then
        Handled(BadRequest(ThrownMessage(registered.value)), true)
      else
        Handled(Response(200, SuccessBody("Registration successful")), true)
  }

  /** The three checks, in order; the first failing check decides the message. */
  function FirstFailure(email: Option<string>, password: Option<string>, name: Option<string>): (r: Option<string>)
    ensures r.None? <==> (Truthy(email) && Truthy(password) && Truthy(name) &&
      MatchesEmailRegex(email.value) && JsText.JsLength(password.value) >= MinPasswordLength)
    ensures r.Some? ==> r.value in {RequiredMessage, InvalidEmailMessage, ShortPasswordMessage}
    ensures !(Truthy(email) && Truthy(password) && Truthy(name)) ==> r == Some(RequiredMessage)
  {
    if !Truthy(email) || !Truthy(password) || !Truthy(name) then Some(RequiredMessage)
    else
      ValidEmailIffRegex(email.value);
      if !ValidEmail(email.value) then Some(InvalidEmailMessage)
    else if JsText.JsLength(password.value) < MinPasswordLength then Some(ShortPasswordMessage)
    else None
  }

  /** A body that fails a check is answered with 400 and that check's message, and the
      user store is never called, so its answer does not matter. */
  lemma ValidationFailureIsFinal(email: Option<string>, password: Option<string>, name: Option<string>,
                                 registered: Option<string>)
    requires FirstFailure(email, password, name).Some?
    ensures Post(Body(email, password, name), registered) ==
      Handled(BadRequest(FirstFailure(email, password, name).value), false)
  {
  }

  /** A body that passes every check is handed to the store: 200 when it registers the
      user, else 400 carrying the store's message. */
  lemma ValidBodyIsRegistered(email: Option<string>, password: Option<string>, name: Option<string>,
                              registered: Option<string>)
    requires FirstFailure(email, password, name).None?
    ensures var h := Post(Body(email, password, name), registered);
      h.attempted &&
      (registered.None? ==> h.response == Response(200, SuccessBody("Registration successful"))) &&
      (registered.Some? ==> h.response == BadRequest(ThrownMessage(registered.value)))
  {
  }

  /** The response is 200 exactly when the fields are present, the email matches the
      regex, the password has at least six UTF-16 units and the store registers the user. */
  lemma SuccessIff(req: Request, registered: Option<string>)
    ensures Post(req, registered).response.status == 200 <==>
      req.Body? && Truthy(req.email) && Truthy(req.password) && Truthy(req.name) &&
      MatchesEmailRegex(req.email.value) && JsText.JsLength(req.password.value) >= MinPasswordLength &&
      registered.None?
  {
    if req.Body? && Truthy(req.email) {
      ValidEmailIffRegex(req.email.value);
    }
  }
}
