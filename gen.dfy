/**
 * src/legal_vec/gen.py: choosing the opinion of a case record, deciding
 * whether the case is stored, the point that is stored, and the loop of
 * `train` over the volume archives.
 *
 * The vector store is a `Store` object holding a map from point id to
 * point; the sentence-embedding model is the parameter `embed`, a function
 * from text to an uninterpreted vector.
 */
module Gen {
  import opened Wrappers
  import opened Records
  import opened Lines

  /** The recognised opinion types and their ranks; rank 1 is the most preferred. */
  const AllowedOpinions: map<string, nat> := map[
    "majority" := 1,
    "unanimous" := 1,
    "on-the-merits" := 1,
    "rehearing" := 2,
    "concurrence" := 3,
    "concurring-in-part-and-dissenting-in-part" := 4
  ]

  /** Minimum number of `splitlines()` segments of a stored opinion text. */
  const MinSegments := 5
  /** Minimum number of characters of a stored opinion text. */
  const MinLength := 150

  predicate Recognised(o: Opinion)
  {
    o.kind in AllowedOpinions
  }

  function Rank(o: Opinion): nat
    requires Recognised(o)
  {
    AllowedOpinions[o.kind]
  }

  // ---------------------------------------------------------------------
  // Citation label
  // ---------------------------------------------------------------------

  /** `i` is the position of the first citation of type "official". */
  predicate FirstOfficial(cs: seq<CaseCitation>, i: int)
  {
    0 <= i < |cs| && cs[i].kind == "official"
    && forall k :: 0 <= k < i ==> cs[k].kind != "official"
  }

  /**
   * The label a diagnostic names the case by: the `cite` of the first
   * official citation, or the decision date when there is none.
   */
  function CitationLabel(cs: seq<CaseCitation>, date: string): (r: string)
    ensures (exists i :: FirstOfficial(cs, i) && r == cs[i].cite)
         || ((forall i :: 0 <= i < |cs| ==> cs[i].kind != "official") && r == date)
  {
    if cs == [] then date
    else if cs[0].kind == "official" then
      assert FirstOfficial(cs, 0);
      cs[0].cite
    else
      var r := CitationLabel(cs[1..], date);
      assert (exists i :: FirstOfficial(cs, i) && r == cs[i].cite)
          || ((forall i :: 0 <= i < |cs| ==> cs[i].kind != "official") && r == date) by {
        if exists i :: FirstOfficial(cs[1..], i) && r == cs[1..][i].cite {
          var i :| FirstOfficial(cs[1..], i) && r == cs[1..][i].cite;
          assert FirstOfficial(cs, i + 1);
        } else {
          forall i | 0 < i < |cs| ensures cs[i].kind != "official" {
            assert cs[i] == cs[1..][i - 1];
          }
        }
      }
      r
  }

  // ---------------------------------------------------------------------
  // Opinion choice
  // ---------------------------------------------------------------------

  /**
   * `i` is the opinion a stable sort of the recognised opinions by rank
   * puts first: it is recognised, no recognised opinion has a smaller rank,
   * and every recognised opinion before it has a larger rank.
   */
  predicate IsPreferred(ops: seq<Opinion>, i: int)
  {
    0 <= i < |ops| && Recognised(ops[i])
    && forall j :: 0 <= j < |ops| && Recognised(ops[j]) ==>
         Rank(ops[i]) < Rank(ops[j]) || (Rank(ops[i]) == Rank(ops[j]) && i <= j)
  }

  /**
   * `sorted(filter(recognised, ops), key=rank)[0]`, as a position in
   * `ops`; `None` where the filtered list is empty and `[0]` raises
   * `IndexError`.
   */
  function ChooseOpinion(ops: seq<Opinion>): (r: Option<nat>)
    ensures r.None? <==> forall i :: 0 <= i < |ops| ==> !Recognised(ops[i])
    ensures r.Some? ==> IsPreferred(ops, r.value)
  {
    if ops == [] then None
    else
      var rest := ChooseOpinion(ops[1..]);
      assert forall j :: 0 < j < |ops| ==> ops[j] == ops[1..][j - 1];
      if rest.None? then
        if Recognised(ops[0]) then Some(0) else None
      else if Recognised(ops[0]) && Rank(ops[0]) <= Rank(ops[rest.value + 1]) then
        Some(0)
      else
        Some(rest.value + 1)
  }

  // ---------------------------------------------------------------------
  // Content floor
  // ---------------------------------------------------------------------

  /** The text is long enough to store: 5 or more segments and 150 or more characters. */
  predicate LongEnough(text: string)
  {
    |SplitLines(text)| >= MinSegments && |text| >= MinLength
  }

  /** The type tag of every opinion, in order, repeats included. */
  function OpinionTypes(ops: seq<Opinion>): (r: seq<string>)
    ensures |r| == |ops|
    ensures forall i :: 0 <= i < |ops| ==> r[i] == ops[i].kind
  {
    if ops == [] then [] else [ops[0].kind] + OpinionTypes(ops[1..])
  }

  // ---------------------------------------------------------------------
  // Loading one case
  // ---------------------------------------------------------------------

  /** Why a case that is not yet stored is not stored. */
  datatype Rejection =
    | NoOpinions
      /** No opinion has a recognised type; a diagnostic names the case and every type. */
    | NoSelectableOpinion(cite: string, types: seq<string>)
    | ContentTooShort

  datatype Selection = Rejected(why: Rejection) | Accepted(index: nat)

  /**
   * The decisions `build_db` takes about a case after the store check:
   * reject an empty opinion list, choose the opinion, apply the content
   * floor.
   */
  function LoadCase(c: CaseMetadata): (r: Selection)
    ensures r == Rejected(NoOpinions) <==> c.casebody.opinions == []
    ensures (r.Rejected? && r.why.NoSelectableOpinion?) <==>
              c.casebody.opinions != []
              && forall i :: 0 <= i < |c.casebody.opinions| ==> !Recognised(c.casebody.opinions[i])
    ensures r.Rejected? && r.why.NoSelectableOpinion? ==>
              r.why.cite == CitationLabel(c.citations, c.decisionDate)
              && |r.why.types| == |c.casebody.opinions|
              && forall i :: 0 <= i < |c.casebody.opinions| ==> r.why.types[i] == c.casebody.opinions[i].kind
    ensures r.Accepted? ==>
              IsPreferred(c.casebody.opinions, r.index) && LongEnough(c.casebody.opinions[r.index].text)
    ensures r == Rejected(ContentTooShort) ==>
              exists i :: IsPreferred(c.casebody.opinions, i) && !LongEnough(c.casebody.opinions[i].text)
  {
    var ops := c.casebody.opinions;
    if ops == [] then Rejected(NoOpinions)
    else
      match ChooseOpinion(ops)
      case None =>
        Rejected(NoSelectableOpinion(CitationLabel(c.citations, c.decisionDate), OpinionTypes(ops)))
      case Some(i) =>
        if LongEnough(ops[i].text) then Accepted(i) else Rejected(ContentTooShort)
  }

  // ---------------------------------------------------------------------
  // The stored point and the store
  // ---------------------------------------------------------------------

  /** What the embedding model returns; its contents are never inspected. */
  type Vector = seq<real>

  datatype Payload = Payload(
    caseId: int,
    date: string,
    citations: seq<string>,
    jurisdiction: Jurisdiction,
    court: CourtMetadata,
    firstPage: string,
    lastPage: string,
    fileName: string,
    nameShort: string,
    name: string)

  datatype Point = Point(id: int, vector: Vector, payload: Payload)

  /** The `cite` of every citation, in order. */
  function Cites(cs: seq<CaseCitation>): (r: seq<string>)
    ensures |r| == |cs|
    ensures forall i :: 0 <= i < |cs| ==> r[i] == cs[i].cite
  {
    if cs == [] then [] else [cs[0].cite] + Cites(cs[1..])
  }

  /** The point `build_db` upserts for case `c` and the vector of its chosen text. */
  function MakePoint(c: CaseMetadata, vector: Vector): (p: Point)
    ensures p.id == c.id && p.payload.caseId == c.id && p.vector == vector
    ensures |p.payload.citations| == |c.citations|
    ensures forall i :: 0 <= i < |c.citations| ==> p.payload.citations[i] == c.citations[i].cite
  {
    Point(c.id, vector, Payload(
      c.id, c.decisionDate, Cites(c.citations), c.jurisdiction, c.court,
      c.firstPage, c.lastPage, c.fileName, c.nameAbbreviation, c.name))
  }

  /** The "cases" collection of the vector store: points by id. */
  class Store {
    var points: map<int, Point>

    /** Every point is filed under its own id. */
    ghost predicate Valid()
      reads this
    {
      forall k :: k in points ==> points[k].id == k
    }

    /** `QdrantClient(path="./case-db")`: the points earlier runs stored. */
    constructor (initial: map<int, Point>)
      requires forall k :: k in initial ==> initial[k].id == k
      ensures Valid() && points == initial
    {
      points := initial;
    }

    /** `client.retrieve(COLLECTION_NAME, [id])` returns a non-empty list. */
    method Retrieve(id: int) returns (found: bool)
      ensures found <==> id in points
    {
      found := id in points;
    }

    /** `client.upsert(COLLECTION_NAME, points=[p], wait=True)`. */
    method Upsert(p: Point)
      requires Valid()
      modifies this
      ensures Valid()
      ensures points == old(points)[p.id := p]
    {
      points := points[p.id := p];
    }
  }

  // ---------------------------------------------------------------------
  // build_db
  // ---------------------------------------------------------------------

  datatype BuildOutcome = AlreadyStored | Skipped(why: Rejection) | Inserted

  /** What `build_db` does with case `c` when the store holds `m`. */
  function Outcome(c: CaseMetadata, m: map<int, Point>): (o: BuildOutcome)
    ensures o == AlreadyStored <==> c.id in m
    ensures o == Inserted <==> c.id !in m && LoadCase(c).Accepted?
    ensures o.Skipped? <==> c.id !in m && LoadCase(c).Rejected?
    ensures o.Skipped? ==> o.why == LoadCase(c).why
  {
    if c.id in m then AlreadyStored
    else match LoadCase(c)
      case Rejected(why) => Skipped(why)
      case Accepted(_) => Inserted
  }

  /** The store after `build_db` has handled case `c` in store `m`. */
  function Ingest(m: map<int, Point>, c: CaseMetadata, embed: string -> Vector): (r: map<int, Point>)
    ensures c.id in m || LoadCase(c).Rejected? ==> r == m
    ensures forall k :: k in m ==> k in r && r[k] == m[k]
    ensures forall k :: k in r && k !in m ==> k == c.id
    ensures c.id !in m && LoadCase(c).Accepted? ==>
              c.id in r
              && r[c.id] == MakePoint(c, embed(c.casebody.opinions[LoadCase(c).index].text))
  {
    if c.id in m then m
    else match LoadCase(c)
      case Rejected(_) => m
      case Accepted(i) => m[c.id := MakePoint(c, embed(c.casebody.opinions[i].text))]
  }

  /** `build_db(case_file, client, model)` on the parsed record `c`. */
  method BuildDb(c: CaseMetadata, store: Store, embed: string -> Vector) returns (outcome: BuildOutcome)
    requires store.Valid()
    modifies store
    ensures store.Valid()
    ensures outcome == Outcome(c, old(store.points))
    ensures store.points == Ingest(old(store.points), c, embed)
  {
    var present := store.Retrieve(c.id);
    if present {
      return AlreadyStored;
    }
    var cite := CitationLabel(c.citations, c.decisionDate);
    var opinions := c.casebody.opinions;
    if opinions == [] {
      return Skipped(NoOpinions);
    }
    var chosen := ChooseOpinion(opinions);
    if chosen.None? {
      return Skipped(NoSelectableOpinion(cite, OpinionTypes(opinions)));
    }
    var text := opinions[chosen.value].text;
    if |SplitLines(text)| < MinSegments || |text| < MinLength {
      return Skipped(ContentTooShort);
    }
    var vector := embed(text);
    store.Upsert(MakePoint(c, vector));
    outcome := Inserted;
  }

  // ---------------------------------------------------------------------
  // train: the loop over archives and their json/ entries
  // ---------------------------------------------------------------------

  /** An entry under `json/`: a case record, or data whose reading raises `BadZipFile`. */
  datatype Member = Case(record: CaseMetadata) | Corrupt
  datatype Entry = Entry(name: string, member: Member)

  /** A volume archive; `opens` is false when `zipfile.ZipFile` rejects it. */
  datatype Archive = Archive(path: string, opens: bool, entries: seq<Entry>)

  /** The messages printed during ingestion. */
  datatype Diagnostic =
    | OpinionChoiceFailed(cite: string, types: seq<string>)
    | BadZip(entry: string)

  /** The message `build_db` prints for an outcome, if any. */
  function Report(o: BuildOutcome): (r: seq<Diagnostic>)
    ensures |r| <= 1
    ensures r != [] <==> o.Skipped? && o.why.NoSelectableOpinion?
    ensures r != [] ==> r[0] == OpinionChoiceFailed(o.why.cite, o.why.types)
  {
    match o
    case Skipped(NoSelectableOpinion(cite, types)) => [OpinionChoiceFailed(cite, types)]
    case _ => []
  }

  /** The store after the entries of one archive, stopping at the first corrupt one. */
  function ArchivePoints(m: map<int, Point>, es: seq<Entry>, embed: string -> Vector): map<int, Point>
    decreases |es|
  {
    if es == [] then m
    else match es[0].member
      case Corrupt => m
      case Case(c) => ArchivePoints(Ingest(m, c, embed), es[1..], embed)
  }

  /** Progress ticks for one archive: one per completed `build_db`, one for a caught `BadZipFile`. */
  function ArchiveTicks(es: seq<Entry>): nat
    decreases |es|
  {
    if es == [] then 0
    else match es[0].member
      case Corrupt => 1
      case Case(_) => 1 + ArchiveTicks(es[1..])
  }

  function ArchiveLog(m: map<int, Point>, es: seq<Entry>, embed: string -> Vector): seq<Diagnostic>
    decreases |es|
  {
    if es == [] then []
    else match es[0].member
      case Corrupt => [BadZip(es[0].name)]
      case Case(c) => Report(Outcome(c, m)) + ArchiveLog(Ingest(m, c, embed), es[1..], embed)
  }

  /** The store after a run over `archives`, which stops at the first archive that does not open. */
  function RunPoints(m: map<int, Point>, archives: seq<Archive>, embed: string -> Vector): map<int, Point>
    decreases |archives|
  {
    if archives == [] || !archives[0].opens then m
    else RunPoints(ArchivePoints(m, archives[0].entries, embed), archives[1..], embed)
  }

  function RunTicks(archives: seq<Archive>): nat
    decreases |archives|
  {
    if archives == [] || !archives[0].opens then 0
    else ArchiveTicks(archives[0].entries) + RunTicks(archives[1..])
  }

  function RunLog(m: map<int, Point>, archives: seq<Archive>, embed: string -> Vector): seq<Diagnostic>
    decreases |archives|
  {
    if archives == [] || !archives[0].opens then []
    else ArchiveLog(m, archives[0].entries, embed) + RunLog(ArchivePoints(m, archives[0].entries, embed), archives[1..], embed)
  }

  /** The path of the first archive that does not open, whose error ends the run. */
  function RunAborted(archives: seq<Archive>): Option<string>
    decreases |archives|
  {
    if archives == [] then None
    else if !archives[0].opens then Some(archives[0].path)
    else RunAborted(archives[1..])
  }

  /**
   * The `try` block of `train` for one opened archive: every `json/` entry
   * handed to `build_db` in order, one progress tick after each, until
   * reading an entry raises `BadZipFile`, which is reported and ticked once.
   */
  method IngestArchive(es: seq<Entry>, store: Store, embed: string -> Vector)
    returns (ticks: nat, log: seq<Diagnostic>)
    requires store.Valid()
    modifies store
    ensures store.Valid()
    ensures store.points == ArchivePoints(old(store.points), es, embed)
    ensures ticks == ArchiveTicks(es)
    ensures log == ArchiveLog(old(store.points), es, embed)
  {
    ticks, log := 0, [];
    var e := 0;
    while e < |es|
      invariant 0 <= e <= |es|
      invariant store.Valid()
      invariant ArchivePoints(store.points, es[e..], embed) == ArchivePoints(old(store.points), es, embed)
      invariant ticks + ArchiveTicks(es[e..]) == ArchiveTicks(es)
      invariant log + ArchiveLog(store.points, es[e..], embed) == ArchiveLog(old(store.points), es, embed)
    {
      var entry := es[e];
      assert es[e..][1..] == es[e + 1..];
      match entry.member {
        case Corrupt =>
          log := log + [BadZip(entry.name)];
          ticks := ticks + 1;
          return;
        case Case(c) =>
          var outcome := BuildDb(c, store, embed);
          log := log + Report(outcome);
          ticks := ticks + 1;
      }
      e := e + 1;
    }
  }

  /**
   * The ingestion loop of `train`: the archives in order, each opened and
   * then ingested; an archive that does not open ends the run.
   */
  method Train(archives: seq<Archive>, store: Store, embed: string -> Vector)
    returns (ticks: nat, log: seq<Diagnostic>, aborted: Option<string>)
    requires store.Valid()
    modifies store
    ensures store.Valid()
    ensures store.points == RunPoints(old(store.points), archives, embed)
    ensures ticks == RunTicks(archives)
    ensures log == RunLog(old(store.points), archives, embed)
    ensures aborted == RunAborted(archives)
  {
    ticks, log, aborted := 0, [], None;
    var a := 0;
    while a < |archives|
      invariant 0 <= a <= |archives|
      invariant store.Valid()
      invariant RunPoints(store.points, archives[a..], embed) == RunPoints(old(store.points), archives, embed)
      invariant ticks + RunTicks(archives[a..]) == RunTicks(archives)
      invariant log + RunLog(store.points, archives[a..], embed) == RunLog(old(store.points), archives, embed)
      invariant RunAborted(archives[a..]) == RunAborted(archives)
    {
      var archive := archives[a];
      assert archives[a..][1..] == archives[a + 1..];
      if !archive.opens {
        // `zipfile.ZipFile(zip_path)` raises outside the `try`: the run ends.
        aborted := Some(archive.path);
        return;
      }
      var archiveTicks, archiveLog := IngestArchive(archive.entries, store, embed);
      ticks := ticks + archiveTicks;
      log := log + archiveLog;
      a := a + 1;
    }
  }
}
