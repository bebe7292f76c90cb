/**
  The booking page reached from a doctor's "Book" links: the `:doctorId`
  route parameter, the mock doctor shown beside the form, the form of four text
  fields with a chosen date and time, the submit button's validity test and
  the summary condition.
*/
module BookAppointment {
  import opened Seqs
  import opened Strings
  import opened Forms
  import Listing
  import Appointment

  /** `doctorId || "1"`: a missing or empty parameter falls back to `"1"`. */
  function EffectiveDoctorParam(doctorId: Option<string>): (p: string)
    ensures p != ""
    ensures doctorId.Some? && doctorId.value != "" ==> p == doctorId.value
    ensures doctorId.None? || doctorId.value == "" ==> p == "1"
  {
    match doctorId
    case None => "1"
    case Some(s) => if s == "" then "1" else s
  }

  /** The mock doctor; `id` is absent when `parseInt` gives `NaN`. */
  datatype MockDoctor = MockDoctor(id: Option<int>, name: string, specialty: string, hospital: string, image: string, fees: string)

  const MockName: string := "Dr. Sarah Johnson"
  const MockSpecialty: string := "Cardiology"
  const MockHospital: string := "City General Hospital"
  const MockImage: string := "https://images.unsplash.com/photo-1559839734-2b71ea197ec2?w=400&h=400&fit=crop&crop=face"
  const MockFees: string := "$150"

  /** The card's doctor: its id is `parseInt` of the effective parameter, though the page never displays the id; every other field is fixed. */
  function MockDoctorFor(doctorId: Option<string>): (d: MockDoctor)
    ensures d.id == ParseInt(EffectiveDoctorParam(doctorId))
    ensures d.name == MockName && d.specialty == MockSpecialty && d.hospital == MockHospital
    ensures d.image == MockImage && d.fees == MockFees
  {
    MockDoctor(ParseInt(EffectiveDoctorParam(doctorId)), MockName, MockSpecialty, MockHospital, MockImage, MockFees)
  }

  /** For a missing or empty parameter the mock doctor's id is 1. */
  lemma DefaultDoctorId(doctorId: Option<string>)
    requires doctorId.None? || doctorId.value == ""
    ensures MockDoctorFor(doctorId).id == Some(1)
  {
    assert EffectiveDoctorParam(doctorId) == ShowInt(1) + "";
    ParseIntShowInt(1, "");
  }

  /** Following a "Book" link of doctor `id` gives the mock doctor that id (the card itself never displays the id). */
  lemma BookLinkId(id: int)
    ensures MockDoctorFor(Some(Listing.BookPath(id)[6..])).id == Some(id)
  {
  }

  /** Whatever the parameter, the card shows the same name, specialty, hospital, picture and fee. */
  lemma MockFieldsFixed(a: Option<string>, b: Option<string>)
    ensures MockDoctorFor(a).(id := None) == MockDoctorFor(b).(id := None)
  {
  }

  /** The time select offers the same twelve labels as the general appointment page. */
  const AvailableTimes: seq<string> := [
    "09:00 AM", "09:30 AM", "10:00 AM", "10:30 AM", "11:00 AM", "11:30 AM",
    "02:00 PM", "02:30 PM", "03:00 PM", "03:30 PM", "04:00 PM", "04:30 PM"
  ]

  lemma SameTimesAsAppointment()
    ensures AvailableTimes == Appointment.AvailableTimes
  {
  }

  /** `isFormValid`: name, email and phone non-empty, a date and a time chosen; the doctor comes from the route. */
  function FormValid(form: FormData, date: Option<int>, time: string): (ok: bool)
    ensures ok <==> && "name" in form && form["name"] != "" && "email" in form && form["email"] != ""
                    && "phone" in form && form["phone"] != "" && ShowsSummary(date, time)
  {
    ContactDetailsFilled(form) && date.Some? && time != ""
  }

  /** The summary block's condition: it appears once a date and a time are chosen, and an unchosen one hides it. */
  function ShowsSummary(date: Option<int>, time: string): (shown: bool)
    ensures date.None? ==> !shown
    ensures time == "" ==> !shown
    ensures date.Some? && time != "" ==> shown
  {
    date.Some? && time != ""
  }

  /** Whenever the button is enabled, the summary is showing. */
  lemma ValidShowsSummary(form: FormData, date: Option<int>, time: string)
    requires FormValid(form, date, time)
    ensures ShowsSummary(date, time)
  {
  }

  /** No doctor choice is needed: validity here is the general page's validity with any doctor chosen. */
  lemma ValidWithoutDoctorChoice(form: FormData, date: Option<int>, time: string, doctor: string)
    requires doctor != ""
    ensures FormValid(form, date, time) <==> Appointment.FormValid(form, date, time, doctor)
  {
  }

  /** The message is optional: whatever it holds, validity does not change. */
  lemma MessageOptional(form: FormData, date: Option<int>, time: string, message: string)
    ensures FormValid(WithField(form, "message", message), date, time) == FormValid(form, date, time)
  {
    ContactDetailsOtherField(form, "message", message);
  }

  /** The page's state. */
  class BookingPage {
    var date: Option<int>
    var selectedTime: string
    var formData: FormData

    /** The same four empty text fields as the appointment page, and no date or time chosen. */
    constructor()
      ensures date.None? && selectedTime == "" && formData == Appointment.InitialForm()
    {
      date := None;
      selectedTime := "";
      formData := Appointment.InitialForm();
    }

    predicate IsFormValid()
      reads this
    {
      FormValid(formData, date, selectedTime)
    }

    /** `handleInputChange(field, value)`: that field of the form data changes, nothing else. */
    method HandleInputChange(field: string, value: string)
      modifies this
      ensures formData == WithField(old(formData), field, value)
      ensures date == old(date) && selectedTime == old(selectedTime)
    {
      formData := formData[field := value];
    }

    /** The calendar's `onSelect`, with the chosen day or absent when the choice is cleared. */
    method SetDate(day: Option<int>)
      modifies this
      ensures date == day
      ensures formData == old(formData) && selectedTime == old(selectedTime)
    {
      date := day;
    }

    method SetSelectedTime(time: string)
      modifies this
      ensures selectedTime == time
      ensures formData == old(formData) && date == old(date)
    {
      selectedTime := time;
    }

    /**
      Pressing the submit button: a disabled button does nothing; an enabled
      one submits the form only when the browser accepts the `type="email"`
      input (`browserEmail`), and then navigates to the confirmation page.
    */
    method Submit(browserEmail: string -> bool) returns (target: Option<string>)
      ensures target.Some? <==> FormValid(formData, date, selectedTime) && browserEmail(formData["email"])
      ensures target.Some? ==> target.value == Appointment.ConfirmationPath
    {
      if IsFormValid() && browserEmail(formData["email"]) {
        target := Some(Appointment.ConfirmationPath);
      } else {
        target := None;
      }
    }
  }
}
