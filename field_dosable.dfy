/**
 * The second-iteration eligibility rule: the compared values are fields that
 * callers set beforehand, and every check is a read of those fields. The
 * record also carries the vitamin counters of the deficiency test.
 */
module FieldDosable {
  import opened Wrappers

  datatype DosableFields = DosableFields(
    date: Option<int>,
    doseNum: int,
    maxDose: int,
    nextDose: Option<int>,
    age: int,
    minAge: int,
    vitaminNeeded: int,
    deficient: int)

  /** Java's default field values: numbers zero, dates null. */
  function DefaultFields(): (d: DosableFields)
    ensures d.date == None && d.nextDose == None
    ensures d.doseNum == 0 && d.maxDose == 0 && d.age == 0 && d.minAge == 0
    ensures d.vitaminNeeded == 0 && d.deficient == 0
  {
    DosableFields(None, 0, 0, None, 0, 0, 0, 0)
  }

  /** `checkAge` */
  predicate CheckAge(d: DosableFields)
  {
    d.age >= d.minAge
  }

  /** `checkDosage` */
  predicate CheckDosage(d: DosableFields)
  {
    d.doseNum < d.maxDose
  }

  /** `checkDate`: dereferences both dates. */
  predicate CheckDate(d: DosableFields)
    requires d.date.Some? && d.nextDose.Some?
  {
    d.date.value > d.nextDose.value
  }

  /**
   * `isDosable()`: Java's `&&` short-circuits, so the dates are only needed
   * when the age and dosage checks already passed.
   */
  function IsDosable(d: DosableFields): (ok: bool)
    requires CheckAge(d) && CheckDosage(d) ==> d.date.Some? && d.nextDose.Some?
    ensures ok <==> d.age >= d.minAge && d.doseNum < d.maxDose
                    && d.date.Some? && d.nextDose.Some? && d.date.value > d.nextDose.value
  {
    CheckAge(d) && CheckDosage(d) && CheckDate(d)
  }

  /** `isDeficient`: equality counts as deficient. */
  function IsDeficient(d: DosableFields): (deficient: bool)
    ensures deficient <==> d.vitaminNeeded >= d.deficient
    ensures d.vitaminNeeded == d.deficient ==> deficient
  {
    d.vitaminNeeded >= d.deficient
  }

  /** Once the whole course is held, no age or date makes the patient dosable. */
  lemma ExhaustedCourseNeverDosable(d: DosableFields)
    requires d.doseNum >= d.maxDose
    ensures IsDosable(d) == false
  {
  }

  /**
   * The boundaries: an age equal to the minimum passes, a dose count equal to
   * the course length fails, and equal dates fail.
   */
  lemma Boundaries(d: DosableFields)
    requires d.date.Some? && d.nextDose.Some?
    ensures d.age == d.minAge && d.doseNum < d.maxDose ==> (IsDosable(d) <==> d.date.value > d.nextDose.value)
    ensures d.doseNum == d.maxDose ==> !IsDosable(d)
    ensures d.date == d.nextDose ==> !IsDosable(d)
  {
  }
}
