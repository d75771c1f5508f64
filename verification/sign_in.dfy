/** The sign-in form: required-field and email-shape validation, clearing a
    field's error as it is edited, and the user built from the trimmed
    fields on submit. */
module SignIn {
  import opened Types
  import opened Text
  import Storage

  datatype Field = FirstName | Surname | Email

  datatype FormData = FormData(firstName: string, surname: string, email: string)

  function FieldValue(d: FormData, f: Field): string {
    match f
    case FirstName => d.firstName
    case Surname => d.surname
    case Email => d.email
  }

  /** `{ ...prev, [field]: value }`. */
  function WithField(d: FormData, f: Field, value: string): (r: FormData)
    ensures FieldValue(r, f) == value
    ensures forall g :: g != f ==> FieldValue(r, g) == FieldValue(d, g)
  {
    match f
    case FirstName => d.(firstName := value)
    case Surname => d.(surname := value)
    case Email => d.(email := value)
  }

  // ---------------------------------------------------------------------------
  // The email shape /^[^\s@]+@[^\s@]+\.[^\s@]+$/

  /** The class `[^\s@]`. */
  predicate Plain(c: char) {
    !IsWhitespace(c) && c != '@'
  }

  predicate AllPlain(s: string) {
    forall k :: 0 <= k < |s| ==> Plain(s[k])
  }

  /** A '.' with at least one character on each side of it. */
  predicate HasInnerDot(d: string) {
    exists q :: 0 < q < |d| - 1 && d[q] == '.'
  }

  /** The email check, read left to right: a non-empty local part up to the
      first '@', then a domain free of whitespace and '@' with an inner '.'. */
  predicate IsValidEmail(s: string) {
    '@' in s &&
    var i := IndexOf(s, '@');
    i > 0 && AllPlain(s[..i]) && AllPlain(s[i + 1..]) && HasInnerDot(s[i + 1..])
  }

  /** `s` is `local@name.rest` with the '@' at `i`, the '.' at `p` and the
      three parts non-empty runs of `[^\s@]`. */
  ghost predicate EmailParts(s: string, i: int, p: int) {
    && 0 < i && i + 1 < p && p + 1 < |s|
    && s[i] == '@' && s[p] == '.'
    && AllPlain(s[..i]) && AllPlain(s[i + 1..p]) && AllPlain(s[p + 1..])
  }

  /** The regular expression itself: some split of `s` into its three parts. */
  ghost predicate MatchesEmailPattern(s: string) {
    exists i, p :: EmailParts(s, i, p)
  }

  /** The hand-written check accepts exactly the strings the regular
      expression matches. */
  lemma EmailShapeIff(s: string)
    ensures IsValidEmail(s) <==> MatchesEmailPattern(s)
  {
    if IsValidEmail(s) {
      var i := IndexOf(s, '@');
      var d := s[i + 1..];
      var q :| 0 < q < |d| - 1 && d[q] == '.';
      var p := i + 1 + q;
      assert s[i + 1..p] == d[..q];
      assert s[p + 1..] == d[q + 1..];
      assert EmailParts(s, i, p);
    }
    if MatchesEmailPattern(s) {
      var i, p :| EmailParts(s, i, p);
      assert '@' !in s[..i];
      var d := s[i + 1..];
      assert d == s[i + 1..p] + [s[p]] + s[p + 1..];
      assert !IsWhitespace('.');
      assert d[p - (i + 1)] == '.';
    }
  }

  /** A well-formed email has no whitespace at either end, so trimming it
      before storing it changes nothing. */
  lemma ValidEmailIsTrimmed(s: string)
    requires IsValidEmail(s)
    ensures Trim(s) == s && Trim(s) != []
  {
    var i := IndexOf(s, '@');
    assert s[0] == s[..i][0];
    assert s[|s| - 1] == s[i + 1..][|s| - i - 2];
    TrimOfTrimmed(s);
  }

  // ---------------------------------------------------------------------------
  // Validation

  const FirstNameRequired: string := "First name is required"
  const SurnameRequired: string := "Surname is required"
  const EmailRequired: string := "Email is required"
  const EmailInvalid: string := "Please enter a valid email address"

  /** The `newErrors` record `validateForm` builds for the form `d`. */
  function FormErrors(d: FormData): map<Field, string> {
    var e1: map<Field, string> := if Trim(d.firstName) == [] then map[FirstName := FirstNameRequired] else map[];
    var e2 := if Trim(d.surname) == [] then e1[Surname := SurnameRequired] else e1;
    if Trim(d.email) == [] then e2[Email := EmailRequired]
    else if !IsValidEmail(d.email) then e2[Email := EmailInvalid]
    else e2
  }

  /** Each field has its own error: a name that is blank once trimmed is
      required; a blank email is required, and otherwise one of the wrong
      shape is invalid. */
  lemma FormErrorsFields(d: FormData)
    ensures FirstName in FormErrors(d) <==> Trim(d.firstName) == []
    ensures FirstName in FormErrors(d) ==> FormErrors(d)[FirstName] == FirstNameRequired
    ensures Surname in FormErrors(d) <==> Trim(d.surname) == []
    ensures Surname in FormErrors(d) ==> FormErrors(d)[Surname] == SurnameRequired
    ensures Email in FormErrors(d) <==> !IsValidEmail(d.email)
    ensures Email in FormErrors(d) ==>
      FormErrors(d)[Email] == if Trim(d.email) == [] then EmailRequired else EmailInvalid
  {
    if IsValidEmail(d.email) {
      ValidEmailIsTrimmed(d.email);
    }
  }

  /** The form is accepted exactly when both names are non-blank and the
      email matches the pattern. */
  lemma FormAccepted(d: FormData)
    ensures FormErrors(d) == map[] <==>
      Trim(d.firstName) != [] && Trim(d.surname) != [] && MatchesEmailPattern(d.email)
  {
    FormErrorsFields(d);
    EmailShapeIff(d.email);
    if FormErrors(d) != map[] {
      var f :| f in FormErrors(d);
    }
  }

  /** `handleSubmit`'s user: every field trimmed. */
  function TrimmedUser(d: FormData): User {
    User(Trim(d.firstName), Trim(d.surname), Trim(d.email))
  }

  /** The user of an accepted form has non-empty names and the email exactly
      as typed, and that email matches the pattern. */
  lemma AcceptedUser(d: FormData)
    requires FormErrors(d) == map[]
    ensures TrimmedUser(d).firstName != [] && TrimmedUser(d).surname != []
    ensures TrimmedUser(d).email == d.email && MatchesEmailPattern(TrimmedUser(d).email)
  {
    FormAccepted(d);
    EmailShapeIff(d.email);
    ValidEmailIsTrimmed(d.email);
  }

  /** What editing `f` does to the errors: a set error of `f` becomes the
      empty string, everything else is kept. */
  function ClearedError(errors: map<Field, string>, f: Field): (r: map<Field, string>)
    ensures r.Keys == errors.Keys
    ensures forall g :: g in r && g != f ==> r[g] == errors[g]
    ensures f in r ==> r[f] == []
  {
    if f in errors && errors[f] != [] then errors[f := []] else errors
  }

  // ---------------------------------------------------------------------------
  // The component

  /** The state of the `SignInPage` component. */
  class SignInForm {
    var formData: FormData
    var errors: map<Field, string>

    constructor ()
      ensures formData == FormData([], [], []) && errors == map[]
    {
      formData := FormData([], [], []);
      errors := map[];
    }

    /** `validateForm`: the errors become those of the current form, and the
        form is valid exactly when there are none. */
    method ValidateForm() returns (valid: bool)
      modifies this`errors
      ensures errors == FormErrors(formData)
      ensures valid <==> errors == map[]
    {
      var newErrors: map<Field, string> := map[];
      if Trim(formData.firstName) == [] {
        newErrors := newErrors[FirstName := FirstNameRequired];
      }
      if Trim(formData.surname) == [] {
        newErrors := newErrors[Surname := SurnameRequired];
      }
      if Trim(formData.email) == [] {
        newErrors := newErrors[Email := EmailRequired];
      } else if !IsValidEmail(formData.email) {
        newErrors := newErrors[Email := EmailInvalid];
      }
      errors := newErrors;
      valid := |newErrors| == 0;
    }

    /** `handleInputChange`: the field takes the new value and its error, if
        one is set, is cleared. */
    method HandleInputChange(field: Field, value: string)
      modifies this
      ensures formData == WithField(old(formData), field, value)
      ensures errors == ClearedError(old(errors), field)
    {
      formData := WithField(formData, field, value);
      errors := ClearedError(errors, field);
    }

    /** `handleSubmit`: an invalid form stops at validation and writes
        nothing; a valid one stores the trimmed user and signs it in. */
    method HandleSubmit(store: Storage.Store) returns (signedIn: Option<User>)
      requires store.Valid()
      modifies this`errors, store
      ensures errors == FormErrors(formData)
      ensures signedIn.Some? <==> errors == map[]
      ensures signedIn.None? ==> unchanged(store)
      ensures signedIn.Some? ==>
        && signedIn.value == TrimmedUser(formData)
        && store.Valid() && store.GetUser() == signedIn
        && store.items == old(store.items)[Storage.UserKey := Storage.UserEntry(signedIn.value)]
        && store.GetSchedule() == old(store.GetSchedule())
        && store.GetSettings() == old(store.GetSettings())
        && store.GetCompletedTasks() == old(store.GetCompletedTasks())
      ensures Storage.KeepsOtherKeys(old(store.items), store.items)
    {
      var valid := ValidateForm();
      if !valid {
        return None;
      }
      var user := TrimmedUser(formData);
      store.SetUser(user);
      signedIn := Some(user);
    }
  }
}
