/**
  The registration schema: per-field rules on the six inputs and the
  refinement that the two passwords agree.  Issues are listed in the order
  zod reports them (field order, then each field's rules in order); the email
  format check is a parameter.
*/
module RegisterSchema {
  import opened Seqs
  import opened Strings
  import opened Forms

  /**
    The submitted values.  `terms` is absent when the checkbox value is not a
    boolean (`undefined`); the text inputs always deliver strings.
  */
  datatype RegisterData = RegisterData(
    fullName: string,
    email: string,
    phone: string,
    password: string,
    confirmPassword: string,
    terms: Option<bool>)

  const FullNameRequired: string := "Full name is required"
  const EmailRequired: string := "Email is required"
  const EmailInvalid: string := "Invalid email address"
  const PhoneRequired: string := "Phone number is required"
  const PhoneInvalid: string := "Invalid phone number"
  const PasswordTooShort: string := "Password must be at least 6 characters"
  const ConfirmRequired: string := "Please confirm your password"
  const TermsRequired: string := "You must agree with our terms and conditions"
  const PasswordsDiffer: string := "Passwords do not match"

  const MinPasswordLength: nat := 6

  /** `/^\+?[0-9]{7,15}$/`: an optional `+`, then 7 to 15 ASCII digits, then the end of the string. */
  function MatchesPhonePattern(s: string): (ok: bool)
    ensures ok ==> 7 <= |s| <= 16
  {
    var start := if |s| > 0 && s[0] == '+' then 1 else 0;
    7 <= |s| - start <= 15 && AllDigits(s[start..])
  }

  /** Every string of the pattern's form is accepted ... */
  lemma PhonePatternAccepts(plus: bool, digits: string)
    requires AllDigits(digits) && 7 <= |digits| <= 15
    ensures MatchesPhonePattern((if plus then "+" else "") + digits)
  {
    var s := (if plus then "+" else "") + digits;
    assert !plus ==> s == digits;
    assert plus ==> s[1..] == digits;
    assert !plus ==> |s| > 0 && IsDigit(s[0]);
  }

  /** ... and only those. */
  lemma PhonePatternOnly(s: string)
    requires MatchesPhonePattern(s)
    ensures || (AllDigits(s) && 7 <= |s| <= 15)
            || (s[0] == '+' && AllDigits(s[1..]) && 7 <= |s[1..]| <= 15)
  {
  }


  // One function per field of the schema, in schema order; each reports only on its own path.

  function FullNameRule(d: RegisterData): (r: seq<Issue>)
    ensures OnlyOn(r, "fullName")
    ensures r == [] <==> d.fullName != ""
    ensures Issue("fullName", FullNameRequired) in r <==> d.fullName == ""
  {
    Check(d.fullName != "", "fullName", FullNameRequired)
  }

  /** `min(1)` then `.email()`: both are checked, so an empty email gets both messages. */
  function EmailRules(d: RegisterData, isEmail: string -> bool): (r: seq<Issue>)
    ensures OnlyOn(r, "email")
    ensures r == [] <==> d.email != "" && isEmail(d.email)
    ensures Issue("email", EmailRequired) in r <==> d.email == ""
    ensures Issue("email", EmailInvalid) in r <==> !isEmail(d.email)
  {
    Check(d.email != "", "email", EmailRequired) + Check(isEmail(d.email), "email", EmailInvalid)
  }

  /** `min(1)` then `.regex(...)`: both are checked. */
  function PhoneRules(d: RegisterData): (r: seq<Issue>)
    ensures OnlyOn(r, "phone")
    ensures r == [] <==> d.phone != "" && MatchesPhonePattern(d.phone)
    ensures Issue("phone", PhoneRequired) in r <==> d.phone == ""
    ensures Issue("phone", PhoneInvalid) in r <==> !MatchesPhonePattern(d.phone)
  {
    Check(d.phone != "", "phone", PhoneRequired) + Check(MatchesPhonePattern(d.phone), "phone", PhoneInvalid)
  }

  /** `min(6)` counts the JavaScript length, in UTF-16 code units. */
  function PasswordRule(d: RegisterData): (r: seq<Issue>)
    ensures OnlyOn(r, "password")
    ensures r == [] <==> Utf16Length(d.password) >= 6
    ensures Issue("password", PasswordTooShort) in r <==> Utf16Length(d.password) < 6
  {
    Check(Utf16Length(d.password) >= MinPasswordLength, "password", PasswordTooShort)
  }

  function ConfirmRule(d: RegisterData): (r: seq<Issue>)
    ensures OnlyOn(r, "confirmPassword")
    ensures r == [] <==> d.confirmPassword != ""
    ensures Issue("confirmPassword", ConfirmRequired) in r <==> d.confirmPassword == ""
    ensures Issue("confirmPassword", PasswordsDiffer) !in r
  {
    Check(d.confirmPassword != "", "confirmPassword", ConfirmRequired)
  }

  /** `z.boolean({ required_error })`: any boolean passes, `false` included. */
  function TermsRule(d: RegisterData): (r: seq<Issue>)
    ensures OnlyOn(r, "terms")
    ensures r == [] <==> d.terms.Some?
    ensures Issue("terms", TermsRequired) in r <==> d.terms.None?
  {
    Check(d.terms.Some?, "terms", TermsRequired)
  }

  /** The object-level `refine`: it runs only when no field had a type error, that is when `terms` is a boolean. */
  function RefineRule(d: RegisterData): (r: seq<Issue>)
    ensures OnlyOn(r, "confirmPassword")
    ensures r == [] <==> d.terms.None? || d.password == d.confirmPassword
    ensures Issue("confirmPassword", PasswordsDiffer) in r <==> d.terms.Some? && d.password != d.confirmPassword
    ensures Issue("confirmPassword", ConfirmRequired) !in r
  {
    if d.terms.Some? then Check(d.password == d.confirmPassword, "confirmPassword", PasswordsDiffer) else []
  }

  /** The paths zod reports on are pairwise different strings. */
  lemma PathsDistinct()
    ensures "fullName" != "email" && "fullName" != "phone" && "fullName" != "password"
    ensures "fullName" != "confirmPassword" && "fullName" != "terms"
    ensures "email" != "phone" && "email" != "password" && "email" != "confirmPassword" && "email" != "terms"
    ensures "phone" != "password" && "phone" != "confirmPassword" && "phone" != "terms"
    ensures "password" != "confirmPassword" && "password" != "terms" && "confirmPassword" != "terms"
  {
    assert "email"[0] != "phone"[0] && "email"[0] != "terms"[0] && "phone"[0] != "terms"[0];
    assert "fullName"[0] != "password"[0];
  }

  /** `registerSchema.safeParse(data)`'s issues, field by field and then the refinement. */
  function Validate(d: RegisterData, isEmail: string -> bool): (issues: seq<Issue>)
    ensures |issues| <= 8
  {
    assert |TermsRule(d) + RefineRule(d)| <= 1;
    FullNameRule(d) + (EmailRules(d, isEmail) + (PhoneRules(d) + (PasswordRule(d)
    + (ConfirmRule(d) + (TermsRule(d) + RefineRule(d))))))
  }

  /** The form is accepted exactly when every rule holds; `terms` may be `false`. */
  lemma AcceptedIff(d: RegisterData, isEmail: string -> bool)
    ensures Validate(d, isEmail) == [] <==>
              && d.fullName != "" && d.email != "" && isEmail(d.email)
              && d.phone != "" && MatchesPhonePattern(d.phone)
              && Utf16Length(d.password) >= 6 && d.confirmPassword != ""
              && d.terms.Some? && d.password == d.confirmPassword
  {
  }

  // Each rule reports its own message on its own path exactly when it is broken.

  lemma FullNameIssue(d: RegisterData, isEmail: string -> bool)
    ensures Issue("fullName", FullNameRequired) in Validate(d, isEmail) <==> d.fullName == ""
  {
    PathsDistinct();
    NotOnOtherPaths(d, isEmail, Issue("fullName", FullNameRequired));
  }

  lemma EmailIssues(d: RegisterData, isEmail: string -> bool)
    ensures Issue("email", EmailRequired) in Validate(d, isEmail) <==> d.email == ""
    ensures Issue("email", EmailInvalid) in Validate(d, isEmail) <==> !isEmail(d.email)
  {
    PathsDistinct();
    NotOnOtherPaths(d, isEmail, Issue("email", EmailRequired));
    NotOnOtherPaths(d, isEmail, Issue("email", EmailInvalid));
  }

  lemma PhoneIssues(d: RegisterData, isEmail: string -> bool)
    ensures Issue("phone", PhoneRequired) in Validate(d, isEmail) <==> d.phone == ""
    ensures Issue("phone", PhoneInvalid) in Validate(d, isEmail) <==> !MatchesPhonePattern(d.phone)
  {
    PathsDistinct();
    NotOnOtherPaths(d, isEmail, Issue("phone", PhoneRequired));
    NotOnOtherPaths(d, isEmail, Issue("phone", PhoneInvalid));
  }

  lemma PasswordIssue(d: RegisterData, isEmail: string -> bool)
    ensures Issue("password", PasswordTooShort) in Validate(d, isEmail) <==> Utf16Length(d.password) < 6
  {
    PathsDistinct();
    NotOnOtherPaths(d, isEmail, Issue("password", PasswordTooShort));
  }

  lemma ConfirmIssues(d: RegisterData, isEmail: string -> bool)
    ensures Issue("confirmPassword", ConfirmRequired) in Validate(d, isEmail) <==> d.confirmPassword == ""
    ensures Issue("confirmPassword", PasswordsDiffer) in Validate(d, isEmail) <==>
              d.terms.Some? && d.password != d.confirmPassword
  {
    PathsDistinct();
    NotOnOtherPaths(d, isEmail, Issue("confirmPassword", ConfirmRequired));
    NotOnOtherPaths(d, isEmail, Issue("confirmPassword", PasswordsDiffer));
  }

  lemma TermsIssue(d: RegisterData, isEmail: string -> bool)
    ensures Issue("terms", TermsRequired) in Validate(d, isEmail) <==> d.terms.None?
  {
    PathsDistinct();
    NotOnOtherPaths(d, isEmail, Issue("terms", TermsRequired));
  }

  /** An issue is in the list exactly when the rules of its own path report it. */
  lemma NotOnOtherPaths(d: RegisterData, isEmail: string -> bool, x: Issue)
    ensures x in Validate(d, isEmail) <==>
              || (x.path == "fullName" && x in FullNameRule(d))
              || (x.path == "email" && x in EmailRules(d, isEmail))
              || (x.path == "phone" && x in PhoneRules(d))
              || (x.path == "password" && x in PasswordRule(d))
              || (x.path == "confirmPassword" && (x in ConfirmRule(d) || x in RefineRule(d)))
              || (x.path == "terms" && x in TermsRule(d))
  {
    OnlyOnMember(FullNameRule(d), "fullName", x);
    OnlyOnMember(EmailRules(d, isEmail), "email", x);
    OnlyOnMember(PhoneRules(d), "phone", x);
    OnlyOnMember(PasswordRule(d), "password", x);
    OnlyOnMember(ConfirmRule(d), "confirmPassword", x);
    OnlyOnMember(TermsRule(d), "terms", x);
    OnlyOnMember(RefineRule(d), "confirmPassword", x);
  }

  /** `terms` only has to be a boolean: `false` and `true` give the same issues. */
  lemma TermsValueIrrelevant(d: RegisterData, isEmail: string -> bool)
    requires d.terms.Some?
    ensures Validate(d.(terms := Some(false)), isEmail) == Validate(d.(terms := Some(true)), isEmail)
  {
  }

  /** As written, agreeing is not required: a filled-in form with the box left unchecked (`false`) is accepted. */
  lemma UncheckedTermsAccepted(isEmail: string -> bool)
    requires isEmail("ann@example.com")
    ensures Validate(RegisterData("Ann Lee", "ann@example.com", "+15551234567", "secret1", "secret1", Some(false)), isEmail) == []
  {
    var d := RegisterData("Ann Lee", "ann@example.com", "+15551234567", "secret1", "secret1", Some(false));
    var p := "+15551234567";
    assert p[1..] == "15551234567";
    assert AllDigits(p[1..]);
    assert Utf16Length(d.password) >= 6;
    assert MatchesPhonePattern(d.phone);
    AcceptedIff(d, isEmail);
  }

  /**
    The evidently intended schema: `terms` must be `true` (as with
    `z.literal(true)`), so the "must agree" message also covers an unchecked
    box; a `terms` that is not `true` aborts the object and skips the refine.
  */
  function ValidateIntended(d: RegisterData, isEmail: string -> bool): (issues: seq<Issue>)
    ensures |issues| <= 8
  {
    FullNameRule(d) + (EmailRules(d, isEmail) + (PhoneRules(d) + (PasswordRule(d)
    + (ConfirmRule(d) + (Check(d.terms == Some(true), "terms", TermsRequired)
    + (if d.terms == Some(true) then RefineRule(d) else []))))))
  }

  /** Under the intended schema a form is accepted exactly when every rule holds and the box is checked. */
  lemma IntendedAcceptedIff(d: RegisterData, isEmail: string -> bool)
    ensures ValidateIntended(d, isEmail) == [] <==>
              && d.fullName != "" && d.email != "" && isEmail(d.email)
              && d.phone != "" && MatchesPhonePattern(d.phone)
              && Utf16Length(d.password) >= 6 && d.confirmPassword != ""
              && d.terms == Some(true) && d.password == d.confirmPassword
  {
  }

  /** The intended schema reports the "must agree" message exactly when the box is not checked. */
  lemma IntendedTermsIssue(d: RegisterData, isEmail: string -> bool)
    ensures Issue("terms", TermsRequired) in ValidateIntended(d, isEmail) <==> d.terms != Some(true)
  {
  }

  /** With the box checked the two schemas agree issue for issue. */
  lemma IntendedAgreesWhenChecked(d: RegisterData, isEmail: string -> bool)
    requires d.terms == Some(true)
    ensures ValidateIntended(d, isEmail) == Validate(d, isEmail)
  {
  }

  /** zod reports both phone rules, so an empty phone number gets both messages, and the field shows "Phone number is required". */
  lemma EmptyPhoneBothIssues(d: RegisterData, isEmail: string -> bool)
    requires d.phone == ""
    ensures Issue("phone", PhoneRequired) in Validate(d, isEmail) && Issue("phone", PhoneInvalid) in Validate(d, isEmail)
    ensures FieldError(Validate(d, isEmail), "phone") == Some(PhoneRequired)
  {
    var p := "phone";
    var t := PhoneRules(d) + (PasswordRule(d) + (ConfirmRule(d) + (TermsRule(d) + RefineRule(d))));
    assert PhoneRules(d) == [Issue(p, PhoneRequired), Issue(p, PhoneInvalid)];
    assert FieldError(t, p) == Some(PhoneRequired) by {
      assert t[0] == Issue(p, PhoneRequired);
    }
    var r1 := EmailRules(d, isEmail) + t;
    PathsDistinct();
    FieldErrorAfterOthers(EmailRules(d, isEmail), t, p);
    FieldErrorAfterOthers(FullNameRule(d), r1, p);
    assert Validate(d, isEmail) == FullNameRule(d) + r1;
  }

  /** `min(6)` counts UTF-16 code units: three characters beyond the Basic Multilingual Plane already make six. */
  lemma AstralPasswordLongEnough(d: RegisterData)
    requires d.password == "\U{1F600}\U{1F600}\U{1F600}"
    ensures |d.password| == 3
    ensures PasswordRule(d) == []
  {
    var pw := d.password;
    assert pw[0] as int == pw[1] as int == pw[2] as int == 0x1F600;
    assert pw[1..][1..][1..] == [];
    assert Utf16Length(pw[2..]) == 2 by { assert pw[2..][1..] == []; }
    assert Utf16Length(pw[1..]) == 4 by { assert pw[1..][1..] == pw[2..]; }
  }

  /** With a non-empty confirmation that differs from the password, the confirmation field shows the mismatch. */
  lemma MismatchShownOnConfirm(d: RegisterData, isEmail: string -> bool)
    requires d.terms.Some? && d.confirmPassword != "" && d.password != d.confirmPassword
    ensures FieldError(Validate(d, isEmail), "confirmPassword") == Some(PasswordsDiffer)
  {
    var c := "confirmPassword";
    var t := ConfirmRule(d) + (TermsRule(d) + RefineRule(d));
    assert t == [Issue(c, PasswordsDiffer)];
    var r3 := PasswordRule(d) + t;
    var r2 := PhoneRules(d) + r3;
    var r1 := EmailRules(d, isEmail) + r2;
    assert FieldError(t, c) == Some(PasswordsDiffer);
    PathsDistinct();
    FieldErrorAfterOthers(PasswordRule(d), t, c);
    FieldErrorAfterOthers(PhoneRules(d), r3, c);
    FieldErrorAfterOthers(EmailRules(d, isEmail), r2, c);
    FieldErrorAfterOthers(FullNameRule(d), r1, c);
  }

}
