/**
 * The parsed JSON records the pipeline consumes, after the TypedDict
 * declarations of src/legal_vec/types.py.  A JSON field named `type` is
 * called `kind` here, because `type` is a Dafny keyword.
 */
module Records {

  /** A reporter series listed under a jurisdiction. */
  datatype Reporter = Reporter(
    id: int,
    fullName: string,
    shortName: string,
    startYear: int,
    endYear: int,
    slug: string)

  /** A jurisdiction as it appears inside a case or a volume record. */
  datatype Jurisdiction = Jurisdiction(id: int, nameLong: string, name: string)

  /**
   * One volume of a reporter.  The volume metadata file also lists, per
   * volume, the jurisdictions it covers; download.py reads that list even
   * though the TypedDict does not declare it.
   */
  datatype ReporterVolume = ReporterVolume(
    id: string,
    volumeNumber: string,
    publisher: string,
    publicationYear: int,
    startYear: int,
    endYear: int,
    reporterSlug: string,
    jurisdictions: seq<Jurisdiction>)

  /** A jurisdiction file: the jurisdiction and its reporters. */
  datatype JurisdictionFull = JurisdictionFull(
    id: int,
    nameLong: string,
    name: string,
    slug: string,
    reporters: seq<Reporter>)

  datatype CourtMetadata = CourtMetadata(nameAbbreviation: string, id: int, name: string)

  /** A citation of a case, such as `{"type": "official", "cite": "8 Cal. App. 5th Supp. 1"}`. */
  datatype CaseCitation = CaseCitation(kind: string, cite: string)

  /** One opinion of a case: its text, its type tag ("majority", "dissent", ...) and its author. */
  datatype Opinion = Opinion(text: string, kind: string, author: string)

  datatype CaseBody = CaseBody(opinions: seq<Opinion>)

  /** One case record, as found under `json/` in a volume archive. */
  datatype CaseMetadata = CaseMetadata(
    id: int,
    name: string,
    nameAbbreviation: string,
    decisionDate: string,
    court: CourtMetadata,
    citations: seq<CaseCitation>,
    fileName: string,
    casebody: CaseBody,
    jurisdiction: Jurisdiction,
    firstPage: string,
    lastPage: string)
}
