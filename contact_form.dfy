/**
  The contact form component: its zod schema over the form values, the
  subject select that writes the `subject` value, and the reset after a
  valid submit.  The text inputs are registered, so their values start as the
  empty string; the subject is only ever set through the select, so it is
  absent until an option is chosen.
*/
module ContactForm {
  import opened Seqs
  import opened Forms

  /** The registered text inputs. */
  const TextFields: seq<string> := ["name", "email", "phone", "message"]

  /** The subject select's option values, in order. */
  const SubjectOptions: seq<string> := ["general", "appointment", "technical", "billing", "feedback", "emergency"]

  const NameRequired: string := "Full name is required"
  const EmailInvalid: string := "Invalid email address"
  const PhoneRequired: string := "Phone is required"
  const SubjectRequired: string := "Subject is required"
  const MessageRequired: string := "Message is required"
  /** zod's message when a string field is `undefined`. */
  const Missing: string := "Required"

  /** `z.string().min(1, message)` on one field. */
  function NonEmptyRule(m: FormData, field: string, message: string): (r: seq<Issue>)
    ensures r == [] <==> Filled(Lookup(m, field))
    ensures |r| <= 1 && forall i :: 0 <= i < |r| ==> r[i].path == field
    ensures field !in m ==> r == [Issue(field, Missing)]
    ensures field in m ==> r == Check(m[field] != "", field, message)
  {
    match Lookup(m, field)
    case None => [Issue(field, Missing)]
    case Some(v) => Check(v != "", field, message)
  }

  /** `z.string().email(message)` on one field: a format check only, so the empty string fails it too. */
  function EmailRule(m: FormData, isEmail: string -> bool): (r: seq<Issue>)
    ensures r == [] <==> "email" in m && isEmail(m["email"])
    ensures |r| <= 1 && forall i :: 0 <= i < |r| ==> r[i].path == "email"
    ensures "email" !in m ==> r == [Issue("email", Missing)]
    ensures "email" in m ==> r == Check(isEmail(m["email"]), "email", EmailInvalid)
  {
    match Lookup(m, "email")
    case None => [Issue("email", Missing)]
    case Some(v) => Check(isEmail(v), "email", EmailInvalid)
  }

  /** `contactSchema.safeParse(values)`'s issues, field by field in schema order. */
  function Validate(m: FormData, isEmail: string -> bool): (issues: seq<Issue>)
    ensures issues == [] <==>
              && Filled(Lookup(m, "name")) && "email" in m && isEmail(m["email"])
              && Filled(Lookup(m, "phone")) && Filled(Lookup(m, "subject")) && Filled(Lookup(m, "message"))
    ensures |issues| <= 5
    ensures forall i, j :: 0 <= i < j < |issues| ==> issues[i].path != issues[j].path
  {
    NonEmptyRule(m, "name", NameRequired)
    + EmailRule(m, isEmail)
    + NonEmptyRule(m, "phone", PhoneRequired)
    + NonEmptyRule(m, "subject", SubjectRequired)
    + NonEmptyRule(m, "message", MessageRequired)
  }

  /** The values right after mounting, and again after a reset: every text input empty, no subject. */
  function Initial(): (m: FormData)
    ensures forall f :: f in m <==> f in TextFields
    ensures forall i :: 0 <= i < |TextFields| ==> Lookup(m, TextFields[i]) == Some("")
    ensures Lookup(m, "subject").None?
  {
    assert "subject" !in TextFields;
    EmptyForm(TextFields)
  }

  // Each rule reports its own message on its own path exactly when it is broken.

  lemma NameIssue(m: FormData, isEmail: string -> bool)
    ensures Issue("name", NameRequired) in Validate(m, isEmail) <==> Lookup(m, "name") == Some("")
    ensures Issue("name", Missing) in Validate(m, isEmail) <==> "name" !in m
  {
  }

  lemma EmailIssue(m: FormData, isEmail: string -> bool)
    ensures Issue("email", EmailInvalid) in Validate(m, isEmail) <==> "email" in m && !isEmail(m["email"])
    ensures Issue("email", Missing) in Validate(m, isEmail) <==> "email" !in m
  {
  }

  lemma PhoneIssue(m: FormData, isEmail: string -> bool)
    ensures Issue("phone", PhoneRequired) in Validate(m, isEmail) <==> Lookup(m, "phone") == Some("")
    ensures Issue("phone", Missing) in Validate(m, isEmail) <==> "phone" !in m
  {
  }

  lemma SubjectIssue(m: FormData, isEmail: string -> bool)
    ensures Issue("subject", SubjectRequired) in Validate(m, isEmail) <==> Lookup(m, "subject") == Some("")
    ensures Issue("subject", Missing) in Validate(m, isEmail) <==> "subject" !in m
  {
  }

  lemma MessageIssue(m: FormData, isEmail: string -> bool)
    ensures Issue("message", MessageRequired) in Validate(m, isEmail) <==> Lookup(m, "message") == Some("")
    ensures Issue("message", Missing) in Validate(m, isEmail) <==> "message" !in m
  {
  }

  /**
    After choosing any subject option (`setValue` without re-validation), the
    next validation reports no subject error and every other field's error as before.
  */
  lemma SubjectOptionAccepted(m: FormData, isEmail: string -> bool, k: nat)
    requires k < |SubjectOptions|
    ensures FieldError(Validate(WithField(m, "subject", SubjectOptions[k]), isEmail), "subject").None?
    ensures forall f :: f != "subject" ==>
              FieldError(Validate(WithField(m, "subject", SubjectOptions[k]), isEmail), f) == FieldError(Validate(m, isEmail), f)
  {
    var m' := WithField(m, "subject", SubjectOptions[k]);
    assert SubjectOptions[k] != "";
    var before := NonEmptyRule(m, "name", NameRequired) + EmailRule(m, isEmail) + NonEmptyRule(m, "phone", PhoneRequired);
    var after := NonEmptyRule(m, "message", MessageRequired);
    assert before == NonEmptyRule(m', "name", NameRequired) + EmailRule(m', isEmail) + NonEmptyRule(m', "phone", PhoneRequired);
    assert after == NonEmptyRule(m', "message", MessageRequired);
    assert Validate(m', isEmail) == before + after;
    assert Validate(m, isEmail) == before + NonEmptyRule(m, "subject", SubjectRequired) + after;
    forall f | f != "subject"
      ensures FieldError(Validate(m', isEmail), f) == FieldError(Validate(m, isEmail), f)
    {
      SkipOtherPath(before, NonEmptyRule(m, "subject", SubjectRequired), after, f);
    }
    assert forall i :: 0 <= i < |before + after| ==> (before + after)[i].path != "subject";
  }

  /** Submitting a freshly mounted form shows "Required" under the subject, none having been chosen, and the name message under the name. */
  lemma InitialRejected(isEmail: string -> bool)
    ensures FieldError(Validate(Initial(), isEmail), "subject") == Some(Missing)
    ensures FieldError(Validate(Initial(), isEmail), "name") == Some(NameRequired)
  {
    var m := Initial();
    var v := Validate(m, isEmail);
    var name := NonEmptyRule(m, "name", NameRequired);
    var mid := EmailRule(m, isEmail) + NonEmptyRule(m, "phone", PhoneRequired);
    var rest := NonEmptyRule(m, "message", MessageRequired);
    assert name == [Issue("name", NameRequired)];
    assert NonEmptyRule(m, "subject", SubjectRequired) == [Issue("subject", Missing)];
    assert v == name + mid + [Issue("subject", Missing)] + rest;
    assert |mid| <= 2 && forall i :: 0 <= i < |mid| ==> mid[i].path in {"email", "phone"};
    FieldErrorAfterOthers(name + mid, [Issue("subject", Missing)] + rest, "subject");
    assert name + mid + ([Issue("subject", Missing)] + rest) == v;
  }

  /** The form's values as react-hook-form holds them. */
  class ContactFormState {
    var values: FormData

    constructor()
      ensures values == Initial()
    {
      values := Initial();
    }

    /** Typing into an input, or `setValue("subject", value)` from the select: that one value changes. */
    method SetValue(field: string, value: string)
      modifies this
      ensures values == WithField(old(values), field, value)
    {
      values := values[field := value];
    }

    /**
      `handleSubmit(onSubmit)`: validates the values; when there are issues
      the values stay and the issues are shown, otherwise `onSubmit` runs and
      `reset()` returns the form to its mounted state.
    */
    method Submit(isEmail: string -> bool) returns (issues: seq<Issue>)
      modifies this
      ensures issues == Validate(old(values), isEmail)
      ensures issues == [] ==> values == Initial()
      ensures issues != [] ==> values == old(values)
    {
      issues := Validate(values, isEmail);
      if issues == [] {
        values := Initial();
      }
    }
  }
}
