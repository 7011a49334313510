/**
 * The ten chapters of the course (`enum ChapterList` in Utils/ChapterList.swift),
 * in `allCases` order.
 */
module Chapters {

  datatype Chapter =
    | LaStrada
    | SegnaleticaStradale
    | NormeDiComportamento
    | IlVeicoloAMotore
    | IVeicoli
    | EquipaggiamentoDeiVeicoli
    | SicurezzaEInquinamento
    | IncidentiEAssicurazione
    | PrimoSoccorso
    | Documenti

  /** `ChapterList.allCases`, in declaration order. */
  const AllChapters: seq<Chapter> := [
    LaStrada, SegnaleticaStradale, NormeDiComportamento, IlVeicoloAMotore, IVeicoli,
    EquipaggiamentoDeiVeicoli, SicurezzaEInquinamento, IncidentiEAssicurazione,
    PrimoSoccorso, Documenti
  ]

  /** Position of a chapter in `allCases` (`allCases.firstIndex(of:)`). */
  function Index(c: Chapter): (i: nat)
    ensures i < |AllChapters| && AllChapters[i] == c
    ensures forall j :: 0 <= j < i ==> AllChapters[j] != c
  {
    match c
    case LaStrada => 0
    case SegnaleticaStradale => 1
    case NormeDiComportamento => 2
    case IlVeicoloAMotore => 3
    case IVeicoli => 4
    case EquipaggiamentoDeiVeicoli => 5
    case SicurezzaEInquinamento => 6
    case IncidentiEAssicurazione => 7
    case PrimoSoccorso => 8
    case Documenti => 9
  }

  /** Every chapter occurs exactly once in `allCases`. */
  lemma AllChaptersDistinct()
    ensures forall i, j :: 0 <= i < j < |AllChapters| ==> AllChapters[i] != AllChapters[j]
  {
  }
}
