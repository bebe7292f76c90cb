/**
  The general appointment page: a form of four text fields plus a chosen
  doctor, date and time.  The submit button is enabled by a validity test,
  and a summary appears once doctor, date and time are chosen.  Dates are
  local milliseconds; "no date chosen" is absent.
*/
module Appointment {
  import opened Seqs
  import opened Forms

  /** An entry of the page's own doctor list (not the store's). */
  datatype LocalDoctor = LocalDoctor(id: string, name: string, specialty: string)

  const Doctors: seq<LocalDoctor> := [
    LocalDoctor("1", "Dr. Sarah Johnson", "Cardiology"),
    LocalDoctor("2", "Dr. Michael Chen", "Dermatology"),
    LocalDoctor("3", "Dr. Emily Davis", "Pediatrics"),
    LocalDoctor("4", "Dr. James Wilson", "Orthopedics")
  ]

  /** The time select's options, in order. */
  const AvailableTimes: seq<string> := [
    "09:00 AM", "09:30 AM", "10:00 AM", "10:30 AM", "11:00 AM", "11:30 AM",
    "02:00 PM", "02:30 PM", "03:00 PM", "03:30 PM", "04:00 PM", "04:30 PM"
  ]

  const FormFields: seq<string> := ["name", "email", "phone", "message"]

  /** Where a submit goes. */
  const ConfirmationPath: string := "/confirmation"

  function InitialForm(): (m: FormData)
    ensures forall f :: f in m <==> f in FormFields
    ensures forall i :: 0 <= i < |FormFields| ==> Lookup(m, FormFields[i]) == Some("")
  {
    EmptyForm(FormFields)
  }

  /** `isFormValid`: name, email and phone non-empty, and a date, a time and a doctor chosen. */
  function FormValid(form: FormData, date: Option<int>, time: string, doctor: string): (ok: bool)
    ensures ok <==> && "name" in form && form["name"] != "" && "email" in form && form["email"] != ""
                    && "phone" in form && form["phone"] != "" && ShowsSummary(date, time, doctor)
  {
    ContactDetailsFilled(form) && date.Some? && time != "" && doctor != ""
  }

  /** The summary block's condition: it appears once a date, a time and a doctor are chosen, and any unchosen one hides it. */
  function ShowsSummary(date: Option<int>, time: string, doctor: string): (shown: bool)
    ensures date.None? ==> !shown
    ensures time == "" ==> !shown
    ensures doctor == "" ==> !shown
    ensures date.Some? && time != "" && doctor != "" ==> shown
  {
    date.Some? && time != "" && doctor != ""
  }

  function IsDoctor(id: string): LocalDoctor -> bool { (d: LocalDoctor) => d.id == id }

  /** `doctors.find(d => d.id === selectedDoctor)`, whose name and specialty the summary shows. */
  function SummaryDoctor(selected: string): (r: Option<LocalDoctor>)
    ensures r.Some? ==> r.value in Doctors && r.value.id == selected
    ensures r.None? <==> forall i :: 0 <= i < |Doctors| ==> Doctors[i].id != selected
  {
    var r := Find(Doctors, IsDoctor(selected));
    assert r.Some? ==> Doctors[FindIndex(Doctors, IsDoctor(selected)).value] == r.value;
    r
  }

  /** Every option of the doctor select brings up that doctor's name and specialty in the summary. */
  lemma SummaryDoctorOfOption(k: nat)
    requires k < |Doctors|
    ensures SummaryDoctor(Doctors[k].id) == Some(Doctors[k])
  {
    var r := SummaryDoctor(Doctors[k].id);
    assert r.Some?;
    assert forall i, j :: 0 <= i < j < |Doctors| ==> Doctors[i].id != Doctors[j].id by {
      assert forall i :: 0 <= i < |Doctors| ==> |Doctors[i].id| == 1 && Doctors[i].id[0] == ('1' as int + i) as char;
    }
    var i :| 0 <= i < |Doctors| && Doctors[i] == r.value;
  }

  /** A value outside the select's options finds no doctor, so the summary's name and specialty are blank. */
  lemma SummaryDoctorUnknown(selected: string)
    requires selected !in ["1", "2", "3", "4"]
    ensures SummaryDoctor(selected).None?
  {
  }

  /** Whenever the button is enabled, the summary is showing. */
  lemma ValidShowsSummary(form: FormData, date: Option<int>, time: string, doctor: string)
    requires FormValid(form, date, time, doctor)
    ensures ShowsSummary(date, time, doctor)
  {
  }

  /** The message is optional: whatever it holds, validity does not change. */
  lemma MessageOptional(form: FormData, date: Option<int>, time: string, doctor: string, message: string)
    ensures FormValid(WithField(form, "message", message), date, time, doctor) == FormValid(form, date, time, doctor)
  {
    ContactDetailsOtherField(form, "message", message);
  }

  /** The button is enabled exactly when the three text fields have been filled in and all three choices made. */
  lemma FilledFormValid(form: FormData, name: string, email: string, phone: string, date: Option<int>, time: string, doctor: string)
    ensures FormValid(WithField(WithField(WithField(form, "name", name), "email", email), "phone", phone), date, time, doctor)
            <==> name != "" && email != "" && phone != "" && date.Some? && time != "" && doctor != ""
  {
  }

  /** Minutes after midnight of an "hh:mm AM" / "hh:mm PM" label. */
  function ClockMinutes(clock: string): int
    requires |clock| == 8
  {
    var hour := (clock[0] as int - '0' as int) * 10 + (clock[1] as int - '0' as int);
    var minute := (clock[3] as int - '0' as int) * 10 + (clock[4] as int - '0' as int);
    var hour24 := if clock[6] == 'P' && hour != 12 then hour + 12 else if clock[6] == 'A' && hour == 12 then 0 else hour;
    hour24 * 60 + minute
  }

  /** The twelve time labels run in strict chronological order, so no label repeats. */
  lemma TimesChronological()
    ensures |AvailableTimes| == 12
    ensures forall i :: 0 <= i < 12 ==> |AvailableTimes[i]| == 8
    ensures forall i, j :: 0 <= i < j < 12 ==> ClockMinutes(AvailableTimes[i]) < ClockMinutes(AvailableTimes[j])
    ensures NoDuplicates(AvailableTimes)
  {
    var t := AvailableTimes;
    var m: seq<int> := [540, 570, 600, 630, 660, 690, 840, 870, 900, 930, 960, 990];
    assert forall i :: 0 <= i < 12 ==> |t[i]| == 8 && ClockMinutes(t[i]) == m[i];
    assert forall i, j :: 0 <= i < j < 12 ==> m[i] < m[j];
  }

  /** The page's state. */
  class AppointmentPage {
    var date: Option<int>
    var selectedTime: string
    var selectedDoctor: string
    var formData: FormData

    /** Empty text fields and nothing chosen. */
    constructor()
      ensures date.None? && selectedTime == "" && selectedDoctor == "" && formData == InitialForm()
    {
      date := None;
      selectedTime := "";
      selectedDoctor := "";
      formData := InitialForm();
    }

    predicate IsFormValid()
      reads this
    {
      FormValid(formData, date, selectedTime, selectedDoctor)
    }

    /** `handleInputChange(field, value)`: that field of the form data changes, nothing else. */
    method HandleInputChange(field: string, value: string)
      modifies this
      ensures formData == WithField(old(formData), field, value)
      ensures date == old(date) && selectedTime == old(selectedTime) && selectedDoctor == old(selectedDoctor)
    {
      formData := formData[field := value];
    }

    /** The calendar's `onSelect`, with the chosen day or absent when the choice is cleared. */
    method SetDate(day: Option<int>)
      modifies this
      ensures date == day
      ensures formData == old(formData) && selectedTime == old(selectedTime) && selectedDoctor == old(selectedDoctor)
    {
      date := day;
    }

    method SetSelectedTime(time: string)
      modifies this
      ensures selectedTime == time
      ensures formData == old(formData) && date == old(date) && selectedDoctor == old(selectedDoctor)
    {
      selectedTime := time;
    }

    method SetSelectedDoctor(id: string)
      modifies this
      ensures selectedDoctor == id
      ensures formData == old(formData) && date == old(date) && selectedTime == old(selectedTime)
    {
      selectedDoctor := id;
    }

    /**
      Pressing the submit button: a disabled button does nothing; an enabled
      one submits the form only when the browser accepts the `type="email"`
      input (`browserEmail`), and then navigates to the confirmation page.
    */
    method Submit(browserEmail: string -> bool) returns (target: Option<string>)
      ensures target.Some? <==> FormValid(formData, date, selectedTime, selectedDoctor) && browserEmail(formData["email"])
      ensures target.Some? ==> target.value == ConfirmationPath
    {
      if IsFormValid() && browserEmail(formData["email"]) {
        target := Some(ConfirmationPath);
      } else {
        target := None;
      }
    }
  }
}
