/**
 * The third-iteration visit: `addDoses` walks the keys of the patient's dose
 * ledger, asks the eligibility rule about each vaccine and, for each one that
 * passes, records a dose on the patient and appends the vaccine to the doses
 * administered during the visit.
 *
 * The ledger's iteration order is unspecified, so the loop may take the keys
 * in any order; `InOrder` is the loop for one given order, and
 * `InOrderIsOrderFree` shows that every order gives the same ledger and the
 * same vaccines appended.
 */
module Visits {
  import opened Wrappers
  import opened Vaccines
  import opened ImmunizationPatients
  import opened ArchivedDosable

  /** The vaccines of a sequence, as a set. */
  function Members(order: seq<Vaccine>): set<Vaccine>
  {
    set v | v in order
  }

  /** No vaccine occurs twice. */
  predicate Distinct(order: seq<Vaccine>)
  {
    forall i, j :: 0 <= i < j < |order| ==> order[i] != order[j]
  }

  /** The vaccines of `examined` that a patient of age `age` may receive on `today`. */
  function EligibleIn(ledger: Ledger, age: int, today: int, examined: set<Vaccine>): (e: set<Vaccine>)
    ensures e <= examined * ledger.Keys
  {
    set v | v in examined && v in ledger && DosableOn(age, v, ledger[v], today)
  }

  /**
   * The ledger after the vaccines of `examined` were each examined once: each
   * eligible one holds exactly one dose more, every other entry is as it was.
   */
  function Administered(ledger: Ledger, age: int, today: int, examined: set<Vaccine>): (r: Ledger)
    ensures r.Keys == ledger.Keys
    ensures forall v :: v in ledger ==> r[v] == if v in EligibleIn(ledger, age, today, examined) then ledger[v] + 1 else ledger[v]
  {
    map v | v in ledger :: if v in examined && DosableOn(age, v, ledger[v], today) then ledger[v] + 1 else ledger[v]
  }

  /**
   * The loop of `addDoses` run over `order`, one vaccine after the other:
   * the ledger it leaves and the vaccines it appends.
   */
  function InOrder(ledger: Ledger, age: int, today: int, order: seq<Vaccine>): (r: (Ledger, seq<Vaccine>))
    requires forall i :: 0 <= i < |order| ==> order[i] in ledger
    ensures r.0.Keys == ledger.Keys
  {
    if order == [] then (ledger, [])
    else
      var previous := InOrder(ledger, age, today, order[..|order| - 1]);
      var v := order[|order| - 1];
      if DosableOn(age, v, previous.0[v], today) then (Recorded(previous.0, v), previous.1 + [v])
      else previous
  }

  /** Examining one more vaccine `v`, not examined before, changes only `v`'s entry. */
  lemma AdministeredStep(ledger: Ledger, age: int, today: int, examined: set<Vaccine>, v: Vaccine)
    requires v in ledger && v !in examined
    ensures Administered(ledger, age, today, examined)[v] == ledger[v]
    ensures Administered(ledger, age, today, examined + {v})
         == if DosableOn(age, v, ledger[v], today)
            then Recorded(Administered(ledger, age, today, examined), v)
            else Administered(ledger, age, today, examined)
  {
    var before := Administered(ledger, age, today, examined);
    var after := Administered(ledger, age, today, examined + {v});
    if DosableOn(age, v, ledger[v], today) {
      var bumped := Recorded(before, v);
      assert after.Keys == bumped.Keys;
      forall w | w in after ensures after[w] == bumped[w] {
      }
    } else {
      assert after.Keys == before.Keys;
      forall w | w in after ensures after[w] == before[w] {
      }
    }
  }

  /** Examining one more vaccine `v` adds it to the eligible ones exactly when it passes. */
  lemma EligibleStep(ledger: Ledger, age: int, today: int, examined: set<Vaccine>, v: Vaccine)
    requires v in ledger && v !in examined
    ensures v !in EligibleIn(ledger, age, today, examined)
    ensures multiset(EligibleIn(ledger, age, today, examined + {v}))
         == if DosableOn(age, v, ledger[v], today)
            then multiset(EligibleIn(ledger, age, today, examined)) + multiset{v}
            else multiset(EligibleIn(ledger, age, today, examined))
  {
    var before := EligibleIn(ledger, age, today, examined);
    if DosableOn(age, v, ledger[v], today) {
      assert EligibleIn(ledger, age, today, examined + {v}) == before + {v};
    } else {
      assert EligibleIn(ledger, age, today, examined + {v}) == before;
    }
  }

  /** The last element of a duplicate-free sequence is not among the ones before it. */
  lemma LastIsNew(order: seq<Vaccine>)
    requires order != [] && Distinct(order)
    ensures Members(order) == Members(order[..|order| - 1]) + {order[|order| - 1]}
    ensures order[|order| - 1] !in Members(order[..|order| - 1])
    ensures Distinct(order[..|order| - 1])
  {
    var prefix := order[..|order| - 1];
    assert order == prefix + [order[|order| - 1]];
    forall i | 0 <= i < |prefix| ensures prefix[i] != order[|order| - 1] {
      assert prefix[i] == order[i];
    }
  }

  /**
   * Whatever order the keys are taken in, the loop leaves the ledger
   * `Administered` describes and appends each eligible vaccine exactly once.
   */
  lemma {:induction false} InOrderIsOrderFree(ledger: Ledger, age: int, today: int, order: seq<Vaccine>)
    requires forall i :: 0 <= i < |order| ==> order[i] in ledger
    requires Distinct(order)
    ensures InOrder(ledger, age, today, order).0 == Administered(ledger, age, today, Members(order))
    ensures multiset(InOrder(ledger, age, today, order).1)
         == multiset(EligibleIn(ledger, age, today, Members(order)))
  {
    if order == [] {
      assert Members(order) == {};
      assert Administered(ledger, age, today, {}) == ledger;
    } else {
      var prefix := order[..|order| - 1];
      var v := order[|order| - 1];
      LastIsNew(order);
      InOrderIsOrderFree(ledger, age, today, prefix);
      AdministeredStep(ledger, age, today, Members(prefix), v);
      EligibleStep(ledger, age, today, Members(prefix), v);
    }
  }

  /** When no vaccine of the ledger has a negative interval, a visit administers nothing. */
  lemma NothingAdministeredWithNonNegativeIntervals(ledger: Ledger, age: int, today: int, examined: set<Vaccine>)
    requires forall v :: v in ledger ==> GetInterval(v) >= 0
    ensures EligibleIn(ledger, age, today, examined) == {}
    ensures Administered(ledger, age, today, examined) == ledger
  {
    assert forall v :: v in ledger ==> !DosableOn(age, v, ledger[v], today);
  }

  class Visit {
    const patient: ImmunizationPatient
    /** The rule state a visit inherits in the source. */
    const rule: Dosable
    var dosesAdministered: seq<Vaccine>

    /** A visit for `patient` with no dose administered yet. */
    constructor (patient: ImmunizationPatient)
      ensures this.patient == patient && fresh(rule)
      ensures dosesAdministered == []
    {
      this.patient := patient;
      rule := new Dosable();
      dosesAdministered := [];
    }

    /** `getDosesAdministered` */
    function GetDosesAdministered(): seq<Vaccine>
      reads this
    {
      dosesAdministered
    }

    /**
     * The loop's invariant: the vaccines of `examined` have been examined,
     * each eligible one gained a dose and was appended after `earlier`, and
     * the rule holds the values loaded for the last one examined.
     */
    ghost predicate Examined(ledger: Ledger, today: int, earlier: seq<Vaccine>, examined: set<Vaccine>,
                             last: Option<Vaccine>, weight: real)
      reads this, patient, rule
    {
      && examined <= ledger.Keys
      && patient.Valid()
      && patient.vaccineDoses == Administered(ledger, patient.age, today, examined)
      && |earlier| <= |dosesAdministered| && dosesAdministered[..|earlier|] == earlier
      && multiset(dosesAdministered[|earlier|..]) == multiset(EligibleIn(ledger, patient.age, today, examined))
      && (last == None ==> examined == {})
      && (last.Some? ==> last.value in ledger && rule.LoadedFrom(patient.age, last.value, ledger[last.value], today))
      && rule.minWeightKG == weight
    }

    /** The body of the loop of `addDoses`, for the vaccine `v`. */
    method Examine(v: Vaccine, today: int, ghost ledger: Ledger, ghost earlier: seq<Vaccine>,
                   ghost examined: set<Vaccine>, ghost last: Option<Vaccine>, ghost weight: real)
      requires Examined(ledger, today, earlier, examined, last, weight)
      requires v in ledger && v !in examined
      modifies this`dosesAdministered, patient`vaccineDoses, rule
      ensures Examined(ledger, today, earlier, examined + {v}, Some(v), weight)
    {
      ghost var appended := dosesAdministered[|earlier|..];
      AdministeredStep(ledger, patient.age, today, examined, v);
      EligibleStep(ledger, patient.age, today, examined, v);
      var ok := rule.IsDosable(patient, v, today);
      if ok {
        patient.AddVaccineDoses(v);
        dosesAdministered := dosesAdministered + [v];
        assert dosesAdministered[|earlier|..] == appended + [v];
      }
    }

    /**
     * `addDoses` on `today`: every eligible vaccine of the ledger gains one
     * dose and is appended once; no key is added or removed; the vaccines
     * administered earlier keep their place at the front.
     */
    method AddDoses(today: int)
      requires patient.Valid()
      modifies this`dosesAdministered, patient`vaccineDoses, rule
      ensures patient.Valid()
      ensures patient.vaccineDoses
           == Administered(old(patient.vaccineDoses), patient.age, today, old(patient.vaccineDoses).Keys)
      ensures |dosesAdministered|
           == |old(dosesAdministered)| + |EligibleIn(old(patient.vaccineDoses), patient.age, today, old(patient.vaccineDoses).Keys)|
      ensures dosesAdministered[..|old(dosesAdministered)|] == old(dosesAdministered)
      ensures multiset(dosesAdministered[|old(dosesAdministered)|..])
           == multiset(EligibleIn(old(patient.vaccineDoses), patient.age, today, old(patient.vaccineDoses).Keys))
      ensures old(patient.vaccineDoses) == map[] ==> unchanged(rule)
      ensures old(patient.vaccineDoses) != map[] ==>
                exists v :: v in old(patient.vaccineDoses)
                  && rule.LoadedFrom(patient.age, v, old(patient.vaccineDoses)[v], today)
                  && rule.minWeightKG == old(rule.minWeightKG)
    {
      ghost var ledger := patient.vaccineDoses;
      ghost var earlier := dosesAdministered;
      ghost var weight := rule.minWeightKG;
      ghost var examined: set<Vaccine> := {};
      ghost var last: Option<Vaccine> := None;
      var keys := patient.vaccineDoses.Keys;
      assert dosesAdministered[|earlier|..] == [];
      assert Administered(ledger, patient.age, today, {}) == ledger;
      while keys != {}
        invariant keys == ledger.Keys - examined
        invariant Examined(ledger, today, earlier, examined, last, weight)
        invariant last == None ==> unchanged(rule)
        decreases keys
      {
        var v :| v in keys;
        Examine(v, today, ledger, earlier, examined, last, weight);
        keys := keys - {v};
        examined := examined + {v};
        last := Some(v);
      }
      assert examined == ledger.Keys;
      assert |multiset(dosesAdministered[|earlier|..])| == |multiset(EligibleIn(ledger, patient.age, today, examined))|;
    }
  }
}
