/**
 * The third-iteration vitamin. It has no constructor and no setters: its
 * counters keep Java's defaults unless code of the same package writes them.
 */
module Vitamins {

  datatype Vitamin = Vitamin(dosageMG: real, vitaminNeeded: int, deficient: int)

  /** A vitamin as the implicit default constructor leaves it. */
  function NewVitamin(): (v: Vitamin)
    ensures v.dosageMG == 0.0 && v.vitaminNeeded == 0 && v.deficient == 0
  {
    Vitamin(0.0, 0, 0)
  }

  /** `isDeficient`: equality counts as deficient. */
  function IsDeficient(v: Vitamin): (deficient: bool)
    ensures deficient <==> v.vitaminNeeded >= v.deficient
    ensures v.vitaminNeeded == v.deficient ==> deficient
  {
    v.vitaminNeeded >= v.deficient
  }

  /** `getDosageMG` */
  function GetDosageMG(v: Vitamin): real { v.dosageMG }

  /** Left at its defaults, a vitamin always reports a deficiency. */
  lemma DefaultVitaminIsDeficient()
    ensures IsDeficient(NewVitamin())
  {
  }
}
