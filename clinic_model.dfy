/**
 * The clinic's model: its name and address and three append-only lists of
 * patients, visits and monthly returns.
 */
module Clinics {
  import opened ImmunizationPatients
  import opened Visits

  /** A monthly immunization return: a plain record consumed by report rendering. */
  datatype MonthlyReturn = MonthlyReturn(
    immunizationCentre: string,
    metro: string,
    region: string,
    month: string,
    totalDosesAdministered: int,
    totalDosesUsed: int)

  class ClinicModel {
    var name: string
    var address: string
    var patients: seq<ImmunizationPatient>
    var monthlyReturns: seq<MonthlyReturn>
    var visits: seq<Visit>

    /** A new model with the given name and address and no records. */
    constructor (name: string, address: string)
      ensures this.name == name && this.address == address
      ensures patients == [] && visits == [] && monthlyReturns == []
    {
      this.name := name;
      this.address := address;
      patients := [];
      visits := [];
      monthlyReturns := [];
    }

    /** `setName`: only the name changes. */
    method SetName(name: string)
      modifies this`name
      ensures this.name == name
    {
      this.name := name;
    }

    /** `setAddress`: only the address changes. */
    method SetAddress(address: string)
      modifies this`address
      ensures this.address == address
    {
      this.address := address;
    }

    /** `addPatient`: appends, without looking for duplicates, and reports success. */
    method AddPatient(patient: ImmunizationPatient) returns (added: bool)
      modifies this`patients
      ensures added
      ensures patients == old(patients) + [patient]
    {
      patients := patients + [patient];
      added := true;
    }

    /** `addVisit`: appends the visit. */
    method AddVisit(visit: Visit)
      modifies this`visits
      ensures visits == old(visits) + [visit]
    {
      visits := visits + [visit];
    }

    /** `addMonthlyReturn`: appends the return and reports success. */
    method AddMonthlyReturn(r: MonthlyReturn) returns (added: bool)
      modifies this`monthlyReturns
      ensures added
      ensures monthlyReturns == old(monthlyReturns) + [r]
    {
      monthlyReturns := monthlyReturns + [r];
      added := true;
    }

    /** Adding the same patient twice keeps both entries. */
    method AddPatientTwice(patient: ImmunizationPatient)
      modifies this`patients
      ensures patients == old(patients) + [patient, patient]
      ensures |patients| == |old(patients)| + 2
    {
      var first := AddPatient(patient);
      var second := AddPatient(patient);
    }
  }
}
