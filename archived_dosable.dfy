/**
 * The third-iteration eligibility rule. The rule object keeps the values it
 * compares in its own fields: `isDosable(patient, vaccine)` first loads them
 * from the patient and the vaccine and then evaluates the three checks.
 *
 * The visit date it loads is "today" and the next-dose date is "today plus the
 * vaccine's interval", so the date check only passes for a negative interval.
 * The clock is a parameter `today` (a day number).
 */
module ArchivedDosable {
  import opened Wrappers
  import opened Vaccines
  import opened ImmunizationPatients
  import FieldDosable

  /**
   * The rule as `isDosable` evaluates it for a patient of age `age` holding
   * `doseNum` doses of `v`: the date comparison reduces to the interval being
   * negative, whatever the day.
   */
  function DosableOn(age: int, v: Vaccine, doseNum: int, today: int): (ok: bool)
    ensures ok <==> age >= GetMinAge(v) && doseNum < GetNumOfDosage(v) && GetInterval(v) < 0
  {
    age >= GetMinAge(v) && doseNum < GetNumOfDosage(v) && today > today + GetInterval(v)
  }

  /** No vaccine with a non-negative interval is ever dosable, on any day. */
  lemma NeverDosableWithNonNegativeInterval(age: int, v: Vaccine, doseNum: int, today: int)
    requires GetInterval(v) >= 0
    ensures !DosableOn(age, v, doseNum, today)
  {
  }

  /** The values `isDosable` loads, laid out as the second-iteration rule's fields. */
  function LoadedFields(age: int, v: Vaccine, doseNum: int, today: int): FieldDosable.DosableFields
  {
    FieldDosable.DosableFields(Some(today), doseNum, GetNumOfDosage(v), Some(today + GetInterval(v)),
                               age, GetMinAge(v), 0, 0)
  }

  /**
   * The third-iteration `isDosable(patient, vaccine)` is the second-iteration
   * `isDosable()` evaluated on the loaded values.
   */
  lemma AgreesWithFieldRule(age: int, v: Vaccine, doseNum: int, today: int)
    ensures DosableOn(age, v, doseNum, today) == FieldDosable.IsDosable(LoadedFields(age, v, doseNum, today))
  {
  }

  class Dosable {
    var date: Option<int>
    var doseNum: int
    var maxDose: int
    var nextDose: Option<int>
    var age: int
    var minAge: int
    var minWeightKG: real

    /** Java's default constructor: numbers zero, dates null. */
    constructor ()
      ensures date == None && nextDose == None
      ensures doseNum == 0 && maxDose == 0 && age == 0 && minAge == 0 && minWeightKG == 0.0
    {
      date, nextDose := None, None;
      doseNum, maxDose, age, minAge, minWeightKG := 0, 0, 0, 0, 0.0;
    }

    /** `checkAge`: an age equal to the minimum passes. */
    predicate CheckAge()
      reads this
    {
      age >= minAge
    }

    /** `checkDosage`: a patient holding the whole course fails. */
    predicate CheckDosage()
      reads this
    {
      doseNum < maxDose
    }

    /** `checkDate`: strictly after the next-dose date; both dates must be set. */
    predicate CheckDate()
      reads this
      requires date.Some? && nextDose.Some?
    {
      date.value > nextDose.value
    }

    /** The six compared fields hold the values `isDosable` loads for these arguments. */
    ghost predicate LoadedFrom(patientAge: int, v: Vaccine, dosesHeld: int, today: int)
      reads this
    {
      && age == patientAge && minAge == Vaccines.GetMinAge(v)
      && date == Some(today) && nextDose == Some(today + GetInterval(v))
      && maxDose == GetNumOfDosage(v) && doseNum == dosesHeld
    }

    /** `getMinAge` of the rule object itself. */
    function GetMinAge(): int
      reads this
    {
      minAge
    }

    /** `getMinWeightKG` of the rule object itself. */
    function GetMinWeightKG(): real
      reads this
    {
      minWeightKG
    }

    /**
     * `isDosable(patient, vaccine)`: overwrites the six compared fields, then
     * evaluates the checks on them. The result therefore depends only on the
     * patient, the vaccine and the day; the patient's ledger and the vaccine
     * are not changed (only `this` is in the frame).
     */
    method IsDosable(patient: ImmunizationPatient, vaccine: Vaccine, today: int) returns (ok: bool)
      requires vaccine in patient.vaccineDoses
      modifies this
      ensures LoadedFrom(patient.age, vaccine, patient.vaccineDoses[vaccine], today)
      ensures minWeightKG == old(minWeightKG)
      ensures ok == (CheckAge() && CheckDosage() && CheckDate())
      ensures ok == DosableOn(patient.age, vaccine, patient.vaccineDoses[vaccine], today)
    {
      age := patient.age;
      minAge := Vaccines.GetMinAge(vaccine);
      date := Some(today);
      nextDose := Some(today + GetInterval(vaccine));
      maxDose := GetNumOfDosage(vaccine);
      doseNum := patient.GetDoseNum(vaccine);
      ok := CheckAge() && CheckDosage() && CheckDate();
    }
  }
}
