# Doctor directory: a Dafny model

The system is a small web front end for a medical practice. A store holds three
seed collections: doctors, their available slots and patient reviews. Four
selectors read that store. The pages build on it:

- a doctor listing with a search box and two select filters;
- a doctor profile resolved from the `:id` route parameter;
- two appointment pages;
- a contact page with its own form;
- a contact form component and a registration form, both validated by zod schemas.

This project models the logic behind those pages and proves what each piece promises:

- the store and its selectors (`Directory`);
- the listing's option lists, filter, result count, badge and links (`Listing`);
- profile resolution and what the profile derives from the doctor (`Profile`);
- the registration schema (`RegisterSchema`);
- the contact form component's schema, subject select and reset (`ContactForm`);
- the appointment page's form state, validity test, summary and time list (`Appointment`);
- the booking page's parameter default, mock doctor, form state and validity test (`BookAppointment`);
- the contact page's form state and the reset on submit (`ContactPage`).

Three shared modules sit under them:

- `Seqs`: array filter, find and first-seen deduplication.
- `Strings`: ASCII `toLowerCase`, `includes`, `split`, decimal `Number`/`parseInt`, and integer printing.
- `Forms`: form-data objects, zod issues and the error a field shows, and the calendar's disabled-day rule.

Modelling choices:

- The seed arrays are arbitrary sequences.
- The selectors are pure functions of an immutable state value.
- Each page whose state changes step by step is a class. Its setters update its fields, and each setter's contract states the whole new state.
- A form-data object is a map from field name to string, so `{ ...prev, [field]: value }` is a map update.
- Dates are integers: local milliseconds, with a calendar day given as the instant of its midnight.
- The current time is a parameter.
- zod's e-mail format check is a parameter `isEmail`; the browser's is a parameter `browserEmail`.
- String lengths that JavaScript measures are counted in UTF-16 code units.

## Model

| member | source | states |
|---|---|---|
| Directory.InitialState | src/store/doctorsStore.ts:44-48 | the store holds exactly the doctors, slots and reviews it was created with |
| Directory.UseDoctors | src/store/doctorsStore.ts:50 | the whole doctor list, unchanged and in order |
| Directory.UseDoctor | src/store/doctorsStore.ts:51-52 | a found doctor has the requested id and is in the list; nothing is found exactly when no doctor has the id; the found doctor is the first with that id |
| Directory.UseSlots | src/store/doctorsStore.ts:53-56 | an order-preserving subsequence of the slots; a slot is in it exactly when it is a slot of the doctor; its length is the number of such slots; each keeps its multiplicity |
| Directory.UseReviews | src/store/doctorsStore.ts:57-62 | the same subsequence, membership, count and multiplicity properties over the reviews |
| Directory.UseDoctorOfListed | src/store/doctorsStore.ts:51-52 | with unique ids, looking up a listed doctor's id gives back exactly that doctor |
| Directory.NoSlotsForUnknownDoctor | src/store/doctorsStore.ts:55 | an id no slot names gets the empty list, not an error |
| Seqs.Filter | src/store/doctorsStore.ts:55 | `filter` keeps only elements that satisfy the predicate, each taken from the input, and is no longer than the input |
| Seqs.FilterIsSubsequence | src/store/doctorsStore.ts:55 | `filter` preserves order: its result is a subsequence of the input |
| Seqs.FilterMembership | src/pages/Doctors.tsx:34-44 | an element is in the result exactly when it is in the input and satisfies the predicate |
| Seqs.FilterMultiplicity | src/pages/Doctors.tsx:34-44 | a kept element occurs as often as in the input, a dropped one not at all |
| Seqs.FilterConcat | src/store/doctorsStore.ts:55 | filtering a concatenation is concatenating the filtered parts |
| Seqs.FilterLength | src/store/doctorsStore.ts:60 | the result's length is the number of input elements that satisfy the predicate |
| Seqs.FilterKeepsAll | src/pages/Doctors.tsx:34-44 | when every element satisfies the predicate the input comes back unchanged |
| Seqs.FilterEmpty | src/pages/Doctors.tsx:182 | the result is empty exactly when no element satisfies the predicate |
| Seqs.FindIndex | src/store/doctorsStore.ts:52 | the index found is that of the first element satisfying the predicate; none is found exactly when no element satisfies it |
| Seqs.Find | src/store/doctorsStore.ts:52 | `find` returns the element at the first satisfying index, and nothing exactly when there is none |
| Seqs.IndexOf | src/pages/Doctors.tsx:25-26 | the first position of a value that occurs: the reference notion of "first occurrence" by which the order of a `Set`'s values is stated |
| Seqs.IndexOfUnique | src/pages/Doctors.tsx:25 | a position holding the value with no earlier occurrence is that first position |
| Seqs.IndexOfPrefix | src/pages/Doctors.tsx:25 | extending a sequence does not move the first position of a value already in it |
| Seqs.Distinct | src/pages/Doctors.tsx:25-26 | `Array.from(new Set(values))` holds every value, only values from the input, and none twice |
| Seqs.DistinctFirstSeenOrder | src/pages/Doctors.tsx:25-26 | the distinct values come in the order of their first occurrence |
| Listing.OptionsOf | src/pages/Doctors.tsx:26 | the option list starts with "all", then holds every value exactly once and nothing else |
| Listing.OptionsFirstSeenOrder | src/pages/Doctors.tsx:26 | after "all" the options come in first-occurrence order |
| Listing.SpecialtiesOf | src/pages/Doctors.tsx:25 | one specialty per doctor, position by position |
| Listing.LocationsOf | src/pages/Doctors.tsx:30 | one location per doctor, position by position |
| Listing.Specialties | src/pages/Doctors.tsx:24-27 | "all" first, then each doctor's specialty exactly once, and only doctors' specialties |
| Listing.Locations | src/pages/Doctors.tsx:29-32 | "all" first, then each doctor's location exactly once, and only doctors' locations |
| Listing.SpecialtiesFirstSeenOrder | src/pages/Doctors.tsx:24-27 | specialty options appear in the order of the first doctor having each |
| Listing.LocationsFirstSeenOrder | src/pages/Doctors.tsx:29-32 | location options appear in the order of the first doctor having each |
| Listing.MatchesSearchMeaning | src/pages/Doctors.tsx:35-37 | the search matches exactly when the lower-cased term occurs in the lower-cased name or specialty |
| Listing.MatchesSearch | src/pages/Doctors.tsx:35-37 | a term longer than both the name and the specialty matches no doctor |
| Listing.MatchesSpecialty | src/pages/Doctors.tsx:38-39 | "all" keeps every doctor; any other value keeps exactly the doctors of that specialty |
| Listing.MatchesLocation | src/pages/Doctors.tsx:40-41 | "all" keeps every doctor; any other value keeps exactly the doctors at that location |
| Listing.Kept | src/pages/Doctors.tsx:34-44 | a doctor passes the filter exactly when the term occurs in its name or specialty ignoring case, and both selects agree |
| Listing.FilteredDoctors | src/pages/Doctors.tsx:34-44 | an order-preserving subsequence of the doctors; a doctor is kept exactly when the search matches, the specialty filter is "all" or equal, and the location filter is "all" or equal; kept doctors keep their multiplicity |
| Listing.InitialFilterKeepsAll | src/pages/Doctors.tsx:19-21 | with an empty search and both filters on "all" every doctor is listed, in order |
| Listing.EmptySearchMatches | src/pages/Doctors.tsx:35-37 | an empty search term matches every doctor |
| Listing.SpecialtyOptionSelects | src/pages/Doctors.tsx:38-39 | with an empty search and the location filter on "all", choosing an offered specialty lists at least one doctor, and exactly the doctors of that specialty |
| Listing.Summary | src/pages/Doctors.tsx:100 | the count shown is the number of filtered doctors; the no-results block shows exactly when no doctor passes the filter |
| Listing.AvailabilityBadge | src/pages/Doctors.tsx:120-128 | "Available" exactly when the availability text contains "today", otherwise "Busy" |
| Listing.BadgeLabel | src/pages/Doctors.tsx:126-128 | the badge text is "Available" exactly for the available badge and "Busy" exactly for the busy one |
| Listing.BadgeText | src/pages/Doctors.tsx:126-128 | a card reads "Available" exactly when its availability text contains "today", and "Busy" exactly when it does not |
| Listing.ProfilePath | src/pages/Doctors.tsx:168 | the profile link is "/doctor/" followed by a parameter that `Number` reads back as the doctor's id |
| Listing.BookPath | src/pages/Doctors.tsx:173 | the booking link is "/book/" followed by a parameter that `parseInt` reads back as the doctor's id |
| Strings.LowerChar | src/pages/Doctors.tsx:36 | an ASCII capital becomes its lower-case letter, every other character stays |
| Strings.Lower | src/pages/Doctors.tsx:36 | `toLowerCase` keeps the length and lower-cases character by character |
| Strings.LowerIdentifiesCase | src/pages/Doctors.tsx:36-37 | two strings lower-case to the same string exactly when they agree position by position up to ASCII case |
| Strings.LowerIdempotent | src/pages/Doctors.tsx:36-37 | lower-casing twice is lower-casing once |
| Strings.IncludesIffOccurs | src/pages/Doctors.tsx:36-37 | `includes` holds exactly when the needle occurs at some position |
| Strings.Includes | src/pages/Doctors.tsx:36 | `includes` holds for every prefix, and never for a needle longer than the string |
| Strings.IncludesEmpty | src/pages/Doctors.tsx:36-37 | every string includes the empty string |
| Strings.Split | src/pages/DoctorProfile.tsx:130 | `split` yields at least one piece and no piece contains the separator |
| Strings.JoinSplit | src/pages/DoctorProfile.tsx:130 | joining the pieces with the separator gives back the string |
| Strings.SplitWord | src/pages/DoctorProfile.tsx:130 | a string without the separator splits into itself alone |
| Strings.SplitWordThenSeparator | src/pages/DoctorProfile.tsx:130 | a separator-free word followed by the separator splits off as the first piece |
| Strings.SplitJoin | src/pages/DoctorProfile.tsx:130 | separator-free pieces joined and split again come back unchanged |
| Strings.SplitCount | src/pages/DoctorProfile.tsx:130 | there is one more piece than there are separators |
| Strings.DigitChar | src/pages/Doctors.tsx:168 | the digit character of a value below ten has that value |
| Strings.ShowNat | src/pages/Doctors.tsx:168 | `${n}` for a natural number: a non-empty run of digits, "0" for zero and no leading zero otherwise |
| Strings.DigitsValueShowNat | src/pages/Doctors.tsx:168 | reading back a printed natural number gives the number |
| Strings.JsNumber | src/pages/DoctorProfile.tsx:19 | `Number("")` is 0; a non-empty string is a number exactly when an optional sign is followed by one or more digits |
| Strings.LeadingDigits | src/pages/BookAppointment.tsx:32 | the longest run of digits at the start of the string |
| Strings.ParseInt | src/pages/BookAppointment.tsx:32 | `parseInt` gives a number exactly when a digit follows the optional sign |
| Strings.LeadingDigitsOfDigits | src/pages/BookAppointment.tsx:32 | digits followed by a non-digit or nothing are exactly the leading digits |
| Strings.ShowIntSign | src/pages/Doctors.tsx:168 | a printed integer has a minus sign exactly when it is negative, followed by its magnitude |
| Strings.ShowInt | src/pages/Doctors.tsx:168 | `${id}` is non-empty, starts with a minus sign exactly for a negative id, and is digits after that |
| Strings.Utf16Length | src/components/RegisterForm.tsx:23 | the JavaScript length counts UTF-16 code units: between the number of characters and twice it, and equal to it when every character is in the Basic Multilingual Plane |
| Strings.NumberShowInt | src/pages/DoctorProfile.tsx:19 | `Number` reads back any printed integer |
| Strings.ParseIntShowInt | src/pages/BookAppointment.tsx:32 | `parseInt` reads back any printed integer, also before a non-digit |
| Profile.ParsedId | src/pages/DoctorProfile.tsx:18-19 | a missing parameter is NaN; otherwise the id is `Number` of the parameter |
| Profile.AboutName | src/pages/DoctorProfile.tsx:130 | the heading token exists exactly when the name contains a space; it is the space-free word that follows the first space |
| Profile.SecondPieceShape | src/pages/DoctorProfile.tsx:130 | the name is the first space-free word, a space, and the second piece, followed by nothing or by a space |
| Profile.StarRow | src/pages/DoctorProfile.tsx:232 | a review gets exactly `rating` stars; `Array` rejects a negative or too large length |
| Profile.Resolve | src/pages/DoctorProfile.tsx:17-44 | NaN gives the not-found view; a numeric id without a doctor gives the not-found view; otherwise the profile of the doctor with that id, whose review count is the number of that doctor's reviews, with its slots, reviews, heading token and booking path |
| Profile.NonNumericIdNotFound | src/pages/DoctorProfile.tsx:25-33 | a parameter that is not a number gives the not-found view, whatever the store holds |
| Profile.ProfileLinkShowsDoctor | src/pages/DoctorProfile.tsx:21 | following a listing card's profile link shows that very doctor, when ids are unique |
| Profile.ShownReviewStars | src/pages/DoctorProfile.tsx:232 | every review on a shown profile belongs to that doctor and comes from the store; when its rating is in 0..2^32-1, a valid `Array` length, it gets `rating` stars |
| RegisterSchema.FullNameRule | src/components/RegisterForm.tsx:14 | the full-name rule reports only on its field, exactly when the name is empty |
| RegisterSchema.EmailRules | src/components/RegisterForm.tsx:15-18 | both email rules are checked; "Email is required" exactly when empty, "Invalid email address" exactly when the format check fails |
| RegisterSchema.PhoneRules | src/components/RegisterForm.tsx:19-22 | both phone rules are checked; "Phone number is required" exactly when empty, "Invalid phone number" exactly when the pattern fails |
| RegisterSchema.PasswordRule | src/components/RegisterForm.tsx:23 | the password rule fails exactly when the password's JavaScript length, in UTF-16 code units, is below 6 |
| RegisterSchema.ConfirmRule | src/components/RegisterForm.tsx:24 | the confirmation rule fails exactly when the confirmation is empty |
| RegisterSchema.TermsRule | src/components/RegisterForm.tsx:25-27 | the terms rule fails exactly when `terms` is not a boolean; `false` passes |
| RegisterSchema.RefineRule | src/components/RegisterForm.tsx:29-32 | the refinement reports "Passwords do not match" on the confirmation path exactly when the object parsed and the passwords differ |
| RegisterSchema.NotOnOtherPaths | src/components/RegisterForm.tsx:12-32 | an issue is reported exactly when the rules of its own path report it |
| RegisterSchema.Validate | src/components/RegisterForm.tsx:12-32 | `registerSchema`'s issue list has at most 8 entries: the terms type error and the refinement never both appear |
| RegisterSchema.ValidateIntended | src/components/RegisterForm.tsx:12-32 | the intended schema, with `terms` required to be `true`, also reports at most 8 issues |
| RegisterSchema.PhonePatternAccepts | src/components/RegisterForm.tsx:22 | an optional '+' then 7 to 15 digits matches the phone pattern |
| RegisterSchema.MatchesPhonePattern | src/components/RegisterForm.tsx:22 | a number matching the pattern has between 7 and 16 characters |
| RegisterSchema.PhonePatternOnly | src/components/RegisterForm.tsx:22 | only such strings match |
| RegisterSchema.EmptyPhoneBothIssues | src/components/RegisterForm.tsx:19-22 | an empty phone number gets both phone messages, and the field shows "Phone number is required" |
| RegisterSchema.AcceptedIff | src/components/RegisterForm.tsx:12-32 | the form is accepted exactly when every field rule holds, `terms` is a boolean and the passwords agree |
| RegisterSchema.FullNameIssue | src/components/RegisterForm.tsx:14 | "Full name is required" is reported exactly when the full name is empty |
| RegisterSchema.EmailIssues | src/components/RegisterForm.tsx:15-18 | "Email is required" exactly when the email is empty; "Invalid email address" exactly when the format check fails |
| RegisterSchema.PhoneIssues | src/components/RegisterForm.tsx:19-22 | "Phone number is required" exactly when the phone is empty; "Invalid phone number" exactly when it does not match the pattern |
| RegisterSchema.PasswordIssue | src/components/RegisterForm.tsx:23 | the length message is reported exactly when the password is shorter than 6 UTF-16 code units |
| RegisterSchema.AstralPasswordLongEnough | src/components/RegisterForm.tsx:23 | three characters beyond the Basic Multilingual Plane pass `min(6)` although the string has only three characters |
| RegisterSchema.ConfirmIssues | src/components/RegisterForm.tsx:24-32 | "Please confirm your password" exactly when the confirmation is empty; "Passwords do not match" exactly when the object parsed and the passwords differ |
| RegisterSchema.TermsIssue | src/components/RegisterForm.tsx:25-27 | the terms message is reported exactly when `terms` is not a boolean |
| RegisterSchema.TermsValueIrrelevant | src/components/RegisterForm.tsx:25-27 | `false` and `true` give the same issues |
| RegisterSchema.MismatchShownOnConfirm | src/components/RegisterForm.tsx:29-32 | with a non-empty confirmation that differs from the password, the confirmation field shows "Passwords do not match" |
| RegisterSchema.UncheckedTermsAccepted | src/components/RegisterForm.tsx:25-27 | as written, a completed form with the box unchecked is accepted |
| RegisterSchema.IntendedAcceptedIff | src/components/RegisterForm.tsx:12-32 | under the intended schema a form is accepted exactly when every rule holds and the box is checked |
| RegisterSchema.IntendedTermsIssue | src/components/RegisterForm.tsx:25-27 | under the intended schema the terms message is reported exactly when the box is not checked |
| RegisterSchema.IntendedAgreesWhenChecked | src/components/RegisterForm.tsx:12-32 | with the box checked the written and the intended schema report the same issues |
| Forms.Lookup | src/pages/Appointment.tsx:60 | reading a field gives its value, or nothing for a field the object lacks |
| Forms.WithField | src/pages/Appointment.tsx:42-47 | the spread update sets that one field and leaves every other field as it was |
| Forms.EmptyForm | src/pages/Contact.tsx:23-29 | the form object has exactly the given fields, each the empty string |
| Forms.ContactDetailsOtherField | src/pages/Appointment.tsx:60 | setting a field other than name, email or phone does not change whether those three are filled |
| Forms.Check | src/components/RegisterForm.tsx:14 | a rule contributes no issue exactly when it holds, otherwise its one issue |
| Forms.FieldError | src/components/RegisterForm.tsx:67-68 | the message shown under a field is that of the first issue on its path, and none exactly when there is no such issue |
| Forms.FieldErrorAfterOthers | src/components/RegisterForm.tsx:161-163 | issues on other paths in front do not change the error a field shows |
| Forms.OnlyOnMember | src/components/RegisterForm.tsx:12-32 | a list of issues that only concern one path holds no issue of another path |
| Forms.SkipOtherPath | src/components/ContactForm.tsx:100-102 | removing issues on other paths does not change the error a field shows |
| Forms.StartOfDay | src/pages/Appointment.tsx:183 | the midnight that starts the day of an instant |
| Forms.TodayDisabledAsWritten | src/pages/Appointment.tsx:183 | as written, today's midnight is disabled at every moment of the day but midnight itself |
| Forms.DisabledAsWritten | src/pages/Appointment.tsx:183 | as written, every day before today is disabled, and no instant from now on is |
| Forms.DisabledDay | src/pages/Appointment.tsx:183 | the intended rule disables only what the written rule disables, and never today or a later day |
| Forms.TodayDisabledExample | src/pages/Appointment.tsx:183 | at 10:00 today's midnight is disabled as written and selectable under the intended rule |
| Forms.DisabledDayMeansPast | src/pages/Appointment.tsx:183 | under the intended rule a day is disabled exactly when it ends no later than today begins; today is never disabled |
| ContactForm.NonEmptyRule | src/components/ContactForm.tsx:19 | `min(1)` passes exactly when the field is present and non-empty; a missing field gives "Required" |
| ContactForm.EmailRule | src/components/ContactForm.tsx:20 | the email rule passes exactly when the field is present and well-formed |
| ContactForm.Validate | src/components/ContactForm.tsx:18-24 | the values are accepted exactly when name, phone, subject and message are non-empty and the email is well-formed; no two issues concern the same field |
| ContactForm.Initial | src/components/ContactForm.tsx:28-37 | on mounting the four text inputs are empty and no subject is set |
| ContactForm.NameIssue | src/components/ContactForm.tsx:19 | "Full name is required" exactly when the name is empty |
| ContactForm.EmailIssue | src/components/ContactForm.tsx:20 | "Invalid email address" exactly when the email fails the format check |
| ContactForm.PhoneIssue | src/components/ContactForm.tsx:21 | "Phone is required" exactly when the phone is empty |
| ContactForm.SubjectIssue | src/components/ContactForm.tsx:22 | "Subject is required" exactly when the subject is empty; "Required" exactly when none was chosen |
| ContactForm.MessageIssue | src/components/ContactForm.tsx:23 | "Message is required" exactly when the message is empty |
| ContactForm.SubjectOptionAccepted | src/components/ContactForm.tsx:87-97 | after choosing any subject option, the next validation reports no subject error and every other field's error as before |
| ContactForm.InitialRejected | src/components/ContactForm.tsx:18-24 | submitting a freshly mounted form shows "Required" under the subject and "Full name is required" under the name |
| ContactForm.ContactFormState.constructor | src/components/ContactForm.tsx:28-37 | the form starts in its mounted state |
| ContactForm.ContactFormState.SetValue | src/components/ContactForm.tsx:87 | typing, or choosing a subject, changes exactly that one value |
| ContactForm.ContactFormState.Submit | src/components/ContactForm.tsx:39-43 | the issues reported are those of the current values; with none the form is reset, otherwise the values stay |
| Appointment.InitialForm | src/pages/Appointment.tsx:23-28 | name, email, phone and message start empty |
| Appointment.SummaryDoctor | src/pages/Appointment.tsx:239 | the summary's doctor is a local doctor with the selected id, and none exactly when no local doctor has it |
| Appointment.SummaryDoctorOfOption | src/pages/Appointment.tsx:30-35 | each option of the doctor select brings up that doctor's name and specialty |
| Appointment.SummaryDoctorUnknown | src/pages/Appointment.tsx:239-243 | an id outside "1" to "4" finds no doctor |
| Appointment.ValidShowsSummary | src/pages/Appointment.tsx:233 | whenever the submit button is enabled the summary is showing |
| Appointment.FormValid | src/pages/Appointment.tsx:60 | `isFormValid` holds exactly when name, email and phone are present and non-empty and the summary is showing |
| Appointment.ShowsSummary | src/pages/Appointment.tsx:233 | the summary appears once a date, a time and a doctor are chosen, and any one left unchosen hides it |
| Appointment.MessageOptional | src/pages/Appointment.tsx:60 | the message does not affect validity |
| Appointment.FilledFormValid | src/pages/Appointment.tsx:60 | after filling in name, email and phone the form is valid exactly when all three are non-empty and a date, a time and a doctor are chosen |
| Appointment.TimesChronological | src/pages/Appointment.tsx:37-40 | the twelve time labels run in strict chronological order, so none repeats |
| Appointment.AppointmentPage.constructor | src/pages/Appointment.tsx:20-28 | empty fields and no date, time or doctor chosen |
| Appointment.AppointmentPage.HandleInputChange | src/pages/Appointment.tsx:42-47 | that field changes and nothing else does |
| Appointment.AppointmentPage.SetDate | src/pages/Appointment.tsx:182 | only the date changes |
| Appointment.AppointmentPage.SetSelectedTime | src/pages/Appointment.tsx:193 | only the time changes |
| Appointment.AppointmentPage.SetSelectedDoctor | src/pages/Appointment.tsx:147 | only the doctor changes |
| Appointment.AppointmentPage.Submit | src/pages/Appointment.tsx:49-60 | a submit navigates to the confirmation page exactly when the button is enabled and the browser accepts the `type="email"` input; otherwise nothing happens; no state changes |
| BookAppointment.EffectiveDoctorParam | src/pages/BookAppointment.tsx:32 | a missing or empty parameter becomes "1", any other is kept |
| BookAppointment.MockDoctorFor | src/pages/BookAppointment.tsx:31-38 | the mock doctor's id is `parseInt` of the effective parameter and is never displayed; name, specialty, hospital, image and fee are fixed |
| BookAppointment.DefaultDoctorId | src/pages/BookAppointment.tsx:32 | for a missing or empty parameter the mock doctor's id is 1 (the page never displays the id) |
| BookAppointment.BookLinkId | src/pages/DoctorProfile.tsx:98 | following a "Book" link of doctor `id`, the mock doctor's id is `id` (the page never displays it) |
| BookAppointment.MockFieldsFixed | src/pages/BookAppointment.tsx:33-37 | apart from the id, the card is the same whatever the parameter |
| BookAppointment.SameTimesAsAppointment | src/pages/BookAppointment.tsx:40-43 | the time labels are the general appointment page's |
| BookAppointment.ValidShowsSummary | src/pages/BookAppointment.tsx:224 | whenever the submit button is enabled the summary is showing |
| BookAppointment.FormValid | src/pages/BookAppointment.tsx:63 | `isFormValid` holds exactly when name, email and phone are present and non-empty and the summary is showing |
| BookAppointment.ShowsSummary | src/pages/BookAppointment.tsx:224 | the summary appears once a date and a time are chosen, and either one left unchosen hides it |
| BookAppointment.ValidWithoutDoctorChoice | src/pages/BookAppointment.tsx:63 | validity is the general page's validity with any doctor chosen: no doctor choice is needed |
| BookAppointment.MessageOptional | src/pages/BookAppointment.tsx:63 | the message does not affect validity |
| BookAppointment.BookingPage.constructor | src/pages/BookAppointment.tsx:21-28 | the same four empty text fields as the appointment page, and no date or time chosen |
| BookAppointment.BookingPage.HandleInputChange | src/pages/BookAppointment.tsx:45-50 | that field changes and nothing else does |
| BookAppointment.BookingPage.SetDate | src/pages/BookAppointment.tsx:179 | only the date changes |
| BookAppointment.BookingPage.SetSelectedTime | src/pages/BookAppointment.tsx:190 | only the time changes |
| BookAppointment.BookingPage.Submit | src/pages/BookAppointment.tsx:52-63 | a submit navigates to the confirmation page exactly when the button is enabled and the browser accepts the `type="email"` input; otherwise nothing happens; no state changes |
| ContactPage.InitialForm | src/pages/Contact.tsx:23-29 | exactly the five fields, all empty |
| ContactPage.SameSubjectsAsContactForm | src/pages/Contact.tsx:191-196 | the subjects are general, appointment, technical, billing, feedback and emergency, as in the contact form component |
| ContactPage.FieldsStay | src/pages/Contact.tsx:31-36 | changing one of the five fields keeps the set of fields |
| ContactPage.SubjectChosen | src/pages/Contact.tsx:186 | choosing an option sets the subject to that non-empty value |
| ContactPage.ContactPageState.constructor | src/pages/Contact.tsx:23-29 | all five fields start empty |
| ContactPage.ContactPageState.HandleInputChange | src/pages/Contact.tsx:31-36 | that field changes and nothing else does |
| ContactPage.ContactPageState.HandleSubmit | src/pages/Contact.tsx:38-50 | the values as they stood are handed over and all five fields become empty |

## Left out

- Rendering, CSS classes, icons and the static pages are not modelled; they hold no logic. This covers `src/pages/Index.tsx`, `src/pages/Confirmation.tsx`, `src/pages/Auth.tsx`, `src/components/Footer.tsx`, `src/components/Header.tsx` and `src/components/template/HomeLayout.tsx`.
- Routing and providers (`src/App.tsx`), `navigate(-1)`, `console.log` and `alert` are I/O. Submits return the target path instead of navigating.
- zustand's `create`, subscriptions and `useShallow` equality are library internals. The store is an immutable value, so no selector can change it.
- The seed arrays in `./data` and `LoginForm` are not part of this model. Everything is proved for arbitrary sequences.
- zod's `.email()` format check is the parameter `isEmail`, and the browser's `type="email"` check is the parameter `browserEmail`.
- react-hook-form's plumbing is not modelled: resolvers, re-validation while typing, and the error state between submits.
- ContactForm.ContactFormState.Submit: `reset()` is modelled as a return to the mounted state. What the uncontrolled subject select keeps showing after a reset is not modelled.
- ContactPage.ContactPageState.HandleSubmit: the browser's native `required` and `type="email"` checks on the contact page are not modelled. They can block a submit before the page's own code runs, so `handleSubmit` is modelled as running on every submit.
- On the two appointment pages the browser's `type="email"` check is the parameter `browserEmail` of each `Submit`. Their native `required` checks are implied by the enabled button, which already needs name, email and phone.
- The registration form's `type="email"` input can likewise stop a submit before zod runs. The schema is modelled as a function of the submitted values, not as the submit.
- Strings.ShowInt, Listing.ProfilePath and Listing.BookPath treat ids as unbounded integers. JavaScript ids are doubles: `${id}` switches to exponent notation from 1e21, and `Number`/`parseInt` round beyond 2^53. The round trips are stated for the integers, not for doubles.
- Appointment.AppointmentPage.SetDate: the calendar's own behaviour is not modelled, namely refusing disabled days and clearing a re-clicked day. The rule it is given is modelled in `Forms`.
- `format` from date-fns, `Date` construction and time zones are not modelled. Dates are local milliseconds.
- Strings.JsNumber covers an optional sign and decimal digits only. Left out are surrounding whitespace, hexadecimal, fractions, exponents and `Infinity`. A fractional id such as "1.5" is therefore NaN here, where `Number` gives 1.5.
- Strings.ParseInt leaves out leading whitespace and the `0x` prefix, which `parseInt` without a radix reads as hexadecimal. Fractions, exponents and trailing text already end the digits as `parseInt` does.
- Strings.Lower lower-cases ASCII letters only. Unicode case folding is not modelled.
- `doctor.rating` is a display-only floating-point value, modelled as a `real`. Review ratings are integers.
- The not-found branch's debug `<pre>` showing `typeof doctorId` is not modelled; it is display only.

## Findings

| source | as written | input that shows it | evidently intended | confidence | as-written member | corrected member |
|---|---|---|---|---|---|---|
| src/pages/Appointment.tsx:183 | `disabled={(date) => date < new Date()}` compares a day's midnight with the current instant, so today is disabled from just after midnight onwards (the same rule is at src/pages/BookAppointment.tsx:180) | now = 10:00 on some day; that day's midnight is earlier than now and is disabled | days before today are disabled, today and later days can be chosen | medium; not executed | Forms.TodayDisabledExample | Forms.DisabledDayMeansPast |
| src/components/RegisterForm.tsx:25-27 | `terms: z.boolean({ required_error })` accepts `false`, and an unchecked single checkbox submits `false`, so "You must agree with our terms and conditions" never shows and registration needs no agreement | a completed form with matching passwords and the box unchecked: no issues | the box must be checked (`true`) for the form to be accepted | medium; not executed | RegisterSchema.UncheckedTermsAccepted | RegisterSchema.IntendedAcceptedIff |
