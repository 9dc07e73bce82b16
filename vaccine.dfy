/**
 * Vaccine reference records of the two third-iteration versions.
 *
 * Both versions extend the eligibility-rule class and therefore inherit its
 * `minAge` and `minWeightKG` fields. The archived version stores the minimum
 * age there and `getMinAge` (inherited) returns it. The current version
 * declares its own `minAge`, which shadows the inherited one: the constructor
 * still writes the inherited field, and its overriding `getMinAge` returns the
 * shadowing field, which nothing ever assigns.
 */
module Vaccines {

  datatype Vaccine =
    | Archived(id: int, name: string, brand: string, numOfDosage: int, interval: int,
               inheritedMinAge: int, inheritedMinWeightKG: real)
    | Current(id: int, name: string, brand: string, numOfDosage: int, interval: int,
              inheritedMinAge: int, inheritedMinWeightKG: real, minAge: int)

  /** `getID` */
  function GetID(v: Vaccine): int { v.id }

  /** `getName` */
  function GetName(v: Vaccine): string { v.name }

  /** `getBrand` */
  function GetBrand(v: Vaccine): string { v.brand }

  /** `getNumOfDosage`: the number of doses in the full course. */
  function GetNumOfDosage(v: Vaccine): int { v.numOfDosage }

  /** `getInterval`: days between doses. */
  function GetInterval(v: Vaccine): int { v.interval }

  /** `getMinAge`, with Java's dynamic dispatch: the current version overrides it. */
  function GetMinAge(v: Vaccine): int
  {
    match v
    case Archived(_, _, _, _, _, inherited, _) => inherited
    case Current(_, _, _, _, _, _, _, own) => own
  }

  /** `getMinWeightKG`, inherited by both versions. */
  function GetMinWeightKG(v: Vaccine): real { v.inheritedMinWeightKG }

  /** The archived constructor: every getter gives back its argument. */
  function NewArchivedVaccine(id: int, name: string, brand: string, numOfDosage: int,
                              interval: int, minAge: int, minWeightKG: real): (v: Vaccine)
    ensures GetID(v) == id && GetName(v) == name && GetBrand(v) == brand
    ensures GetNumOfDosage(v) == numOfDosage && GetInterval(v) == interval
    ensures GetMinAge(v) == minAge
    ensures GetMinWeightKG(v) == minWeightKG
  {
    Archived(id, name, brand, numOfDosage, interval, minAge, minWeightKG)
  }

  /**
   * The current constructor. The minimum age lands in the inherited field, so
   * `getMinAge` reports 0 whatever was passed; the minimum weight is never set.
   */
  function NewVaccine(id: int, name: string, brand: string, numOfDosage: int,
                      interval: int, minAge: int): (v: Vaccine)
    ensures GetID(v) == id && GetName(v) == name && GetBrand(v) == brand
    ensures GetNumOfDosage(v) == numOfDosage && GetInterval(v) == interval
    ensures GetMinAge(v) == 0
    ensures v.inheritedMinAge == minAge
    ensures GetMinWeightKG(v) == 0.0
  {
    Current(id, name, brand, numOfDosage, interval, minAge, 0.0, 0)
  }
}
