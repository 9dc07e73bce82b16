# Child immunization bookkeeping, modelled in Dafny

This project models the immunization core of a classroom clinic application:
who may receive a vaccine dose, how a patient's doses are counted, how a
visit records the doses it gives, the vitamin-deficiency test, the one-shot
vaccination reminder, and the clinic model's record lists.

- `vaccine.dfy` (`Vaccines`): the vaccine reference record in its two
  third-iteration versions. The archived version stores the minimum age in the
  field it inherits from the rule class. The current version declares its own
  `minAge`, which shadows the inherited one and is never assigned, so its
  `getMinAge` reports 0 whatever the constructor was given.
- `immunization_patient.dfy` (`ImmunizationPatients`): the patient with its
  dose ledger, a map from vaccine to count updated in place. The first
  `addVaccineDoses` of a vaccine stores 0 and every later one adds 1;
  `getDoseNum` needs the vaccine to be in the ledger.
- `archived_dosable.dfy` (`ArchivedDosable`): the third-iteration eligibility
  rule, a class whose `isDosable(patient, vaccine)` loads six fields and then
  checks age ≥ minimum age, doses held < doses in the course, and visit date
  strictly after the next-dose date. It loads today as the visit date and
  today plus the interval as the next-dose date, so the rule holds only for a
  negative interval; this is proved, not corrected.
- `field_dosable.dfy` (`FieldDosable`): the second-iteration rule, pure checks
  over fields set by callers, and its `isDeficient` test.
- `visit.dfy` (`Visits`): the third-iteration visit. `addDoses` walks the
  ledger's keys; each vaccine that passes the rule gains a dose and is
  appended to the doses administered. The loop takes keys in any order; a
  pure `InOrder` runs it for one explicit order, and a lemma proves every
  order gives the same ledger and the same appended vaccines.
- `vitamin.dfy` (`Vitamins`), `reminder.dfy` (`Reminders`),
  `clinic_model.dfy` (`Clinics`): the vitamin, the reminder state machine
  (its channel is returned instead of printed) and the clinic model.
- `wrappers.dfy` (`Wrappers`): `Option`, used for Java references that may
  still be null (the date fields of the rule and of the reminder).

Dates are whole day numbers; the clock is a parameter `today`. Integers are
unbounded. Plain getters (`getID`, `getName`, `getNumOfDosage`, `getInterval`,
`getMinAge`, `getMinWeightKG`, `getDosageMG`, `getDosesAdministered`) are
functions without contracts of their own; what they return is stated by the
constructors' and operations' contracts. The same holds for the three checks
`checkAge`, `checkDosage` and `checkDate` of both rule versions
(`ArchivedDosable.Dosable.CheckAge`, `.CheckDosage`, `.CheckDate`, and
`FieldDosable.CheckAge`, `CheckDosage`, `CheckDate`): their meaning is stated by
the contracts of `ArchivedDosable.DosableOn`, `ArchivedDosable.Dosable.IsDosable`,
`FieldDosable.IsDosable` and `FieldDosable.Boundaries`. The guard of the
reminder, `Reminders.ShouldRemind`, is stated by the contracts of
`Reminders.Reminder.IsReminded` and `Reminders.RemindedBlocks`.

The ledger's first entry for a vaccine is 0 and each later dose adds 1; a
vaccine absent from the ledger is an error, since `getDoseNum` unboxes a
missing entry; the date check of the third-iteration rule compares today with
today plus the vaccine's interval.

## Model

| member | source | states |
|---|---|---|
| Vaccines.NewArchivedVaccine | Archive/Iteration3/Vaccine.java:34-101 | the archived getters give back the constructor's id, name, brand, dose count, interval, minimum age and minimum weight |
| Vaccines.NewVaccine | Iteration3/Vaccine.java:35-110 | the current getters give back id, name, brand, dose count and interval; `getMinAge` is 0 for every minimum age given, which lands only in the shadowed inherited field; the minimum weight stays 0 |
| ImmunizationPatients.Recorded | ImmunizationPatient.java:76-84 | one `addVaccineDoses`: a new vaccine enters with count 0, a known one gains exactly 1, every other entry is unchanged, no other key appears |
| ImmunizationPatients.RecordedKeepsNonNegative | ImmunizationPatient.java:76-84 | recording a dose keeps every count non-negative |
| ImmunizationPatients.RecordedTimesCount | ImmunizationPatient.java:66-84 | after n ≥ 1 calls for a vaccine not yet in the ledger its count is n − 1 and the other entries are unchanged |
| ImmunizationPatients.ImmunizationPatient.constructor | ImmunizationPatient.java:16-41 | a new patient has the given id and age and an empty ledger |
| ImmunizationPatients.ImmunizationPatient.GetDoseNum | ImmunizationPatient.java:66-68 | defined only for a vaccine in the ledger; the count is never negative |
| ImmunizationPatients.ImmunizationPatient.AddVaccineDoses | ImmunizationPatient.java:76-84 | the ledger becomes `Recorded` of the old ledger, and counts stay non-negative |
| ArchivedDosable.DosableOn | Archive/Iteration3/Dosable.java:82-96 | the rule as loaded holds exactly when age ≥ minimum age, doses held < doses in the course and the interval is negative, whatever the day |
| ArchivedDosable.NeverDosableWithNonNegativeInterval | Archive/Iteration3/Dosable.java:84-95 | with an interval ≥ 0 no patient is ever dosable |
| ArchivedDosable.AgreesWithFieldRule | Archive/Iteration3/Dosable.java:24-55 | the third-iteration result is the second-iteration conjunction of the three checks on the loaded values |
| ArchivedDosable.Dosable.constructor | Archive/Iteration3/Dosable.java:9-17 | a new rule object has zero numbers and null dates |
| ArchivedDosable.Dosable.IsDosable | Archive/Iteration3/Dosable.java:82-96 | overwrites age, minimum age, date, next-dose date, course length and dose count with values from the patient, the vaccine and today (needs the vaccine in the ledger); returns the three checks' conjunction; changes only the rule object |
| FieldDosable.DefaultFields | Iteration2/Dosable.java:10-20 | the default rule fields: zero numbers and null dates |
| FieldDosable.IsDosable | Iteration2/Dosable.java:27-72 | true exactly when age ≥ minimum age, doses held < course length and the date is strictly after the next-dose date; the dates are needed only once the first two checks pass |
| FieldDosable.IsDeficient | Iteration2/Dosable.java:80-85 | true exactly when vitamin needed ≥ deficiency level, equality included |
| FieldDosable.ExhaustedCourseNeverDosable | Iteration2/Dosable.java:39-72 | once doses held ≥ course length the rule fails whatever the age and dates |
| FieldDosable.Boundaries | Iteration2/Dosable.java:27-58 | an age equal to the minimum passes; equal dates fail |
| Vitamins.NewVitamin | Archive/Iteration3/Vitamin.java:8-11 | a vitamin has zero dosage and zero counters until written |
| Vitamins.IsDeficient | Archive/Iteration3/Vitamin.java:19-24 | true exactly when vitamin needed ≥ deficiency level, equality included |
| Vitamins.DefaultVitaminIsDeficient | Archive/Iteration3/Vitamin.java:8-24 | a vitamin left at its defaults always reports a deficiency |
| Reminders.ChannelFor | Archive/Iteration2/Reminder.java:37-46 | exactly "email" gives email, exactly "text" gives text, anything else a phone call; matching is case-sensitive |
| Reminders.RemindedBlocks | Archive/Iteration2/Reminder.java:36 | once reminded, the guard never passes again |
| Reminders.Reminder.constructor | Archive/Iteration2/Reminder.java:17-23 | Java's defaults: null dates and style, flags false |
| Reminders.Reminder.IsReminded | Archive/Iteration2/Reminder.java:35-49 | the flag is raised and one channel chosen exactly when the date is after the due date, the patient is unvaccinated and no reminder was sent; otherwise nothing changes; the flag never falls; no other field changes |
| Reminders.Reminder.RemindTwice | Archive/Iteration2/Reminder.java:35-49 | a second call right after the first sends nothing |
| Visits.EligibleIn | Iteration3/Visit.java:26-27 | the eligible vaccines are keys of the ledger that were examined |
| Visits.Administered | Iteration3/Visit.java:26-29 | the visit's ledger has exactly the old keys; each eligible vaccine's count rises by exactly 1 and every other count stays |
| Visits.InOrder | Iteration3/Visit.java:26-31 | the loop over an explicit key order adds and removes no key |
| Visits.InOrderIsOrderFree | Iteration3/Visit.java:26-31 | for every duplicate-free key order the loop leaves the same ledger and appends each eligible vaccine exactly once and nothing else |
| Visits.NothingAdministeredWithNonNegativeIntervals | Iteration3/Visit.java:26-31 | when every ledger vaccine has interval ≥ 0 a visit appends nothing and changes no count |
| Visits.Visit.constructor | Iteration3/Visit.java:13-17 | a visit holds the given patient and an empty list of doses administered |
| Visits.Visit.Examine | Iteration3/Visit.java:27-30 | one pass of the loop keeps the loop invariant with one more vaccine examined |
| Visits.Visit.AddDoses | Iteration3/Visit.java:25-32 | the ledger gains one dose for each eligible vaccine, keys unchanged; the list keeps its old entries in front and grows by each eligible vaccine exactly once; the rule holds the values loaded for some ledger vaccine |
| Clinics.ClinicModel.constructor | Iteration3/ClinicModel.java:23-29 | the given name and address and three empty lists |
| Clinics.ClinicModel.SetName | Iteration3/ClinicModel.java:43 | only the name changes |
| Clinics.ClinicModel.SetAddress | Iteration3/ClinicModel.java:57 | only the address changes |
| Clinics.ClinicModel.AddPatient | Iteration3/ClinicModel.java:86-88 | appends the patient at the end, touches nothing else, returns true |
| Clinics.ClinicModel.AddVisit | Iteration3/ClinicModel.java:95-97 | appends the visit at the end, touches nothing else |
| Clinics.ClinicModel.AddMonthlyReturn | Iteration3/ClinicModel.java:105-107 | appends the return at the end, touches nothing else, returns true |
| Clinics.ClinicModel.AddPatientTwice | Iteration3/ClinicModel.java:86-88 | adds do not deduplicate: the same patient twice gives two entries |

## Left out

- Visits.Visit.AddDoses: the rule object's final fields are stated only as loaded from some vaccine of the ledger, because the iteration order of a hash map's keys is unspecified.
- Null dereferences: where the source throws `NullPointerException`, the model has a precondition instead. `ImmunizationPatients.ImmunizationPatient.GetDoseNum` and `ArchivedDosable.Dosable.IsDosable` require the vaccine in the ledger (the unboxing at ImmunizationPatient.java:67); `ArchivedDosable.Dosable.CheckDate`, `FieldDosable.CheckDate` and `FieldDosable.IsDosable` require set dates (Iteration2/Dosable.java:52 and Archive/Iteration3/Dosable.java:49 dereference them); `Reminders.Reminder.IsReminded` and `Reminders.Reminder.RemindTwice` require set `date` and `dueDate`, and a set `remindStyle` when the guard holds, though a freshly constructed reminder has all three null. The crashes themselves are not modelled.
- ArchivedDosable.Dosable.IsDosable: when `getDoseNum` throws at Archive/Iteration3/Dosable.java:91, the source has already overwritten `age`, `minAge`, `date`, `nextDose` and `maxDose`; the model excludes that call, so it does not capture the rule object left half-loaded.
- Ledger keys are vaccine values compared by value; the source's hash map compares vaccine objects by identity (no `equals` or `hashCode`), so two equal-valued vaccine objects would be two keys there.
- Ledger counts are unbounded; the source's `int` would wrap after 2^31 − 1 doses of one vaccine.
- The clock: `LocalDate.now()` is the parameter `today`, read once; the source reads it twice in `isDosable`, which could only make the date check fail more often.
- Calendar limits of `LocalDate` are not modelled; dates are unbounded day numbers.
- The visit's field initializer reads the patient before it is set and calls a ledger accessor the patient lacks, and the administered list is never created; the model has a constructor that sets the patient and an empty list, and reads the ledger when `addDoses` runs.
- The visit's `visitDate` is never assigned or read and is not modelled.
- The visit's rule state is a separate `Dosable` object rather than inherited fields.
- `getDosesAdministered` returns the list value, not a reference the caller could change.
- Weights and dosages in millilitres and milligrams are stored as `real` where a getter returns them (`getMinWeightKG`, `getDosageMG`) and left out elsewhere (`getDosageML`, `weightKG` and its accessors): they are never compared.
- Administration mode, location, diseases treated and the `dosage` field of the rule are stored only for display and are not modelled.
- Console output of the reminder is replaced by the returned channel.
- Patients have only an id and an age; the other biographic fields and the patient class hierarchy are plain accessors.
- A monthly return keeps its centre, metro, region, month and two dose totals; the other counters and the wastage rate feed only report text.
- The Swing views and the controller, the CSV stock files, report and record text, and the facade and demo classes are outside this model.
- `toString` of the rule and of the vaccines is report text and is not modelled.
