/**
 * The immunization patient and its dose ledger: a map from vaccine to the
 * number of doses recorded, updated in place.
 */
module ImmunizationPatients {
  import opened Vaccines

  type Ledger = map<Vaccine, int>

  /** Every recorded count is non-negative. */
  ghost predicate NonNegative(ledger: Ledger)
  {
    forall v :: v in ledger ==> ledger[v] >= 0
  }

  /**
   * The ledger after one `addVaccineDoses(v)`: a vaccine seen for the first
   * time is entered with count 0 (not 1); a known one gains exactly one dose.
   */
  function Recorded(ledger: Ledger, v: Vaccine): (r: Ledger)
    ensures r.Keys == ledger.Keys + {v}
    ensures v !in ledger ==> r[v] == 0
    ensures v in ledger ==> r[v] == ledger[v] + 1
    ensures forall w :: w in ledger && w != v ==> r[w] == ledger[w]
  {
    if v !in ledger then ledger[v := 0] else ledger[v := ledger[v] + 1]
  }

  lemma RecordedKeepsNonNegative(ledger: Ledger, v: Vaccine)
    requires NonNegative(ledger)
    ensures NonNegative(Recorded(ledger, v))
  {
  }

  /** The ledger after `n` calls of `addVaccineDoses(v)`. */
  function RecordedTimes(ledger: Ledger, v: Vaccine, n: nat): Ledger
  {
    if n == 0 then ledger else Recorded(RecordedTimes(ledger, v, n - 1), v)
  }

  /**
   * Starting from a ledger without `v`, `n >= 1` calls leave the count at
   * `n - 1` and every other entry as it was.
   */
  lemma {:induction false} RecordedTimesCount(ledger: Ledger, v: Vaccine, n: nat)
    requires v !in ledger && n >= 1
    ensures RecordedTimes(ledger, v, n).Keys == ledger.Keys + {v}
    ensures RecordedTimes(ledger, v, n)[v] == n - 1
    ensures forall w :: w in ledger ==> RecordedTimes(ledger, v, n)[w] == ledger[w]
  {
    if n > 1 {
      RecordedTimesCount(ledger, v, n - 1);
    }
  }

  class ImmunizationPatient {
    var patientId: string
    var age: int
    var vaccineDoses: Ledger

    ghost predicate Valid()
      reads this
    {
      NonNegative(vaccineDoses)
    }

    /** A new patient has an empty dose ledger. */
    constructor (patientId: string, age: int)
      ensures Valid()
      ensures this.patientId == patientId && this.age == age
      ensures vaccineDoses == map[]
    {
      this.patientId := patientId;
      this.age := age;
      vaccineDoses := map[];
    }

    /**
     * `getDoseNum`: the count recorded for `v`. The source unboxes the map's
     * answer, so a vaccine missing from the ledger is not allowed.
     */
    function GetDoseNum(v: Vaccine): (n: int)
      reads this
      requires v in vaccineDoses
      ensures Valid() ==> n >= 0
    {
      vaccineDoses[v]
    }

    /** `addVaccineDoses` */
    method AddVaccineDoses(v: Vaccine)
      requires Valid()
      modifies this`vaccineDoses
      ensures Valid()
      ensures vaccineDoses == Recorded(old(vaccineDoses), v)
    {
      if v !in vaccineDoses {
        vaccineDoses := vaccineDoses[v := 0];
      } else {
        vaccineDoses := vaccineDoses[v := GetDoseNum(v) + 1];
      }
    }
  }
}
