/**
  The contact page's own form: five text fields held in component state,
  changed one field at a time, and cleared on submit.
*/
module ContactPage {
  import opened Seqs
  import opened Forms
  import ContactForm

  const FormFields: seq<string> := ["name", "email", "phone", "subject", "message"]

  /** The subject select's option values, in order. */
  const SubjectOptions: seq<string> := ["general", "appointment", "technical", "billing", "feedback", "emergency"]

  /** All five fields empty: the state on mounting and after every submit. */
  function InitialForm(): (m: FormData)
    ensures m.Keys == set f | f in FormFields
    ensures forall i :: 0 <= i < |FormFields| ==> Lookup(m, FormFields[i]) == Some("")
  {
    EmptyForm(FormFields)
  }

  /** This page and the contact form component offer the same subjects in the same order. */
  lemma SameSubjectsAsContactForm()
    ensures SubjectOptions == ContactForm.SubjectOptions
  {
  }

  /** Changing one of the five fields keeps the form's set of fields as it was. */
  lemma FieldsStay(m: FormData, i: nat, value: string)
    requires m.Keys == (set f | f in FormFields) && i < |FormFields|
    ensures WithField(m, FormFields[i], value).Keys == m.Keys
  {
  }

  /** Choosing a subject option sets the subject to a non-empty option value. */
  lemma SubjectChosen(m: FormData, k: nat)
    requires k < |SubjectOptions|
    ensures Lookup(WithField(m, "subject", SubjectOptions[k]), "subject") == Some(SubjectOptions[k])
    ensures Filled(Lookup(WithField(m, "subject", SubjectOptions[k]), "subject"))
  {
    assert SubjectOptions[k] != "";
  }

  class ContactPageState {
    var formData: FormData

    constructor()
      ensures formData == InitialForm()
    {
      formData := InitialForm();
    }

    /** `handleInputChange(field, value)`, also used by the subject select: that field changes, nothing else. */
    method HandleInputChange(field: string, value: string)
      modifies this
      ensures formData == WithField(old(formData), field, value)
    {
      formData := formData[field := value];
    }

    /** `handleSubmit`: hands over the values as they stood and clears all five fields. */
    method HandleSubmit() returns (submitted: FormData)
      modifies this
      ensures submitted == old(formData)
      ensures formData == InitialForm()
    {
      submitted := formData;
      formData := InitialForm();
    }
  }
}
