/** The record shapes of the matcher: a parsed CV, an offer's sections, the
    timeline flags and a scored matching result. */
module Models {
  import opened Wrappers
  import opened JsonValue

  datatype Experience = Experience(
    poste: string,
    entreprise: string,
    lieu: string,
    dateDebut: string,
    dateFin: string,
    duree: string,
    missions: seq<string>)

  /** A structured CV; `cv` is the file name it was parsed from. Formations,
      certifications and projects are free-form dictionaries. */
  datatype Cv = Cv(
    cv: string,
    titre: string,
    resumeProfessionnel: string,
    competencesTechniques: seq<string>,
    competencesTransversales: seq<string>,
    langues: seq<string>,
    experiences: seq<Experience>,
    formations: seq<Json>,
    certifications: seq<Json>,
    projets: seq<Json>)

  /** The `sections` record of an offer; experiences and formations are
      free-form dictionaries. */
  datatype OffreSection = OffreSection(
    titre: string,
    description: string,
    resumeProfessionnel: string,
    competencesTechniques: seq<string>,
    competencesTransversales: seq<string>,
    outils: seq<string>,
    langages: seq<string>,
    langues: seq<string>,
    experiences: seq<Json>,
    formations: seq<Json>,
    certifications: seq<string>,
    projets: seq<string>)

  /** A calendar date (proleptic Gregorian, like Python's `date`). */
  datatype Date = Date(year: int, month: int, day: int)

  /** The `entreprise` value of an experience: a string, or any other
      value, which the messages show by its `str()` text and which has no
      `lower()`. */
  datatype Company = Named(name: string) | Unnamed(shown: string)

  /** An experience whose two dates parsed; `index` is its position in the input. */
  datatype Dated = Dated(index: nat, entreprise: Company, debut: Date, fin: Date)

  /** A gap in the professional timeline, from the end of `earlier` to the
      start of `later`; its `period` and `between` texts are rendered from
      these fields. */
  datatype Gap = Gap(from: Date, to: Date, durationMonths: int, earlier: Dated, later: Dated)

  /** Two experiences that overlap in time from `start` to `end`; the
      `overlap_period` and `experiences` texts are rendered from these fields. */
  datatype Overlap = Overlap(start: Date, end: Date, overlapDays: int, first: Dated, second: Dated, sameCompany: bool)

  datatype Flags = Flags(gappes: seq<Gap>, overlaps: seq<Overlap>)

  /** The scored result of one CV. */
  datatype ResultatMatching = ResultatMatching(
    cv: string,
    scoreFinal: real,
    scoreBase: real,
    bonusNiceHave: real,
    coefficientExperience: real,
    niceHaveManquants: seq<string>,
    commentaireScoring: Option<string>,
    appreciationGlobale: Option<string>)

  /** The field bounds the result record declares: both scores and the
      nice-have multiplier in [0, 1], the coefficient in [1.0, 1.4]. */
  predicate ValidResultat(r: ResultatMatching) {
    && 0.0 <= r.scoreFinal <= 1.0
    && 0.0 <= r.scoreBase <= 1.0
    && 0.0 <= r.bonusNiceHave <= 1.0
    && 1.0 <= r.coefficientExperience <= 1.4
  }
}
