/**
 * Properties of the model of src/legal_vec/gen.py: the opinion choice, the
 * content floor at its boundary, and what a run of `train` does to the
 * store and to the progress counter.
 */
module GenProperties {
  import opened Wrappers
  import opened Records
  import opened Lines
  import opened Gen

  // ---------------------------------------------------------------------
  // Opinion choice
  // ---------------------------------------------------------------------

  /** At most one opinion is the one a stable sort by rank puts first. */
  lemma PreferredUnique(ops: seq<Opinion>, i: int, j: int)
    requires IsPreferred(ops, i) && IsPreferred(ops, j)
    ensures i == j
  {
  }

  /**
   * A case with a single opinion of an unrecognised type is rejected with
   * a diagnostic that lists that type: the filter applies to a lone
   * opinion too.
   */
  lemma LoneUnrecognisedOpinionRejected(c: CaseMetadata)
    requires |c.casebody.opinions| == 1 && !Recognised(c.casebody.opinions[0])
    ensures LoadCase(c)
         == Rejected(NoSelectableOpinion(CitationLabel(c.citations, c.decisionDate), [c.casebody.opinions[0].kind]))
  {
    var r := LoadCase(c);
    assert r.Rejected? && r.why.NoSelectableOpinion?;
    assert r.why.types == [c.casebody.opinions[0].kind];
  }

  /** A recognised opinion outranks an unrecognised one that comes earlier. */
  lemma RecognisedBeatsUnrecognised(dissent: Opinion, majority: Opinion)
    requires dissent.kind == "dissent" && majority.kind == "majority"
    ensures ChooseOpinion([dissent, majority]) == Some(1)
  {
    var ops := [dissent, majority];
    var r := ChooseOpinion(ops);
    assert Recognised(ops[1]) && !Recognised(ops[0]);
    PreferredUnique(ops, r.value, 1);
  }

  /** Among equal ranks the earliest opinion wins; a better rank later still wins. */
  lemma RankThenPosition(a: Opinion, b: Opinion, c: Opinion)
    requires a.kind == "concurrence" && b.kind == "unanimous" && c.kind == "majority"
    ensures ChooseOpinion([a, b, c]) == Some(1)
  {
    var ops := [a, b, c];
    var r := ChooseOpinion(ops);
    assert Recognised(ops[1]);
    assert IsPreferred(ops, 1);
    PreferredUnique(ops, r.value, 1);
  }

  // ---------------------------------------------------------------------
  // Content floor
  // ---------------------------------------------------------------------

  /** `n` characters and no line boundary. */
  function Filler(n: nat): (s: string)
    ensures |s| == n && NoLineBreak(s)
  {
    seq(n, _ => 'a')
  }

  /** `n` lines of 29 characters, each ended by `\n`: 30 characters per line. */
  function Block(n: nat): (s: string)
    ensures |s| == 30 * n
  {
    if n == 0 then [] else Filler(29) + "\n" + Block(n - 1)
  }

  /** The first line of a block is split off as one segment. */
  lemma BlockStep(n: nat, rest: string)
    requires n > 0
    ensures |SplitLines(Block(n) + rest)| == 1 + |SplitLines(Block(n - 1) + rest)|
  {
    assert Block(n) + rest == Filler(29) + "\n" + (Block(n - 1) + rest);
    SplitLinesNewline(Filler(29), Block(n - 1) + rest);
  }

  /** Each line of a block is one segment, whatever follows the block. */
  lemma {:induction false} BlockSegments(n: nat, rest: string)
    ensures |SplitLines(Block(n) + rest)| == n + |SplitLines(rest)|
  {
    if n == 0 {
      assert Block(n) + rest == rest;
    } else {
      BlockStep(n, rest);
      BlockSegments(n - 1, rest);
    }
  }

  /** Exactly 150 characters in exactly 5 segments is accepted. */
  lemma ContentFloorAccepts()
    ensures |Block(5)| == 150 && |SplitLines(Block(5))| == 5
    ensures LongEnough(Block(5))
  {
    BlockSegments(5, []);
    assert Block(5) + [] == Block(5);
  }

  /** 149 characters in 5 segments is rejected. */
  lemma ContentFloorRejectsShort()
    ensures |Block(4) + Filler(29)| == 149 && |SplitLines(Block(4) + Filler(29))| == 5
    ensures !LongEnough(Block(4) + Filler(29))
  {
    BlockSegments(4, Filler(29));
    SplitLinesSingle(Filler(29));
  }

  /** 150 characters in 4 segments is rejected. */
  lemma ContentFloorRejectsFewLines()
    ensures |Block(3) + Filler(60)| == 150 && |SplitLines(Block(3) + Filler(60))| == 4
    ensures !LongEnough(Block(3) + Filler(60))
  {
    BlockSegments(3, Filler(60));
    SplitLinesSingle(Filler(60));
  }

  // ---------------------------------------------------------------------
  // The store over a run
  // ---------------------------------------------------------------------

  /** `m2` holds every point of `m1`, unchanged. */
  ghost predicate Extends(m2: map<int, Point>, m1: map<int, Point>)
  {
    forall k :: k in m1 ==> k in m2 && m2[k] == m1[k]
  }

  /** Ingesting an archive only adds points. */
  lemma {:induction false} ArchiveGrows(m: map<int, Point>, es: seq<Entry>, embed: string -> Vector)
    ensures Extends(ArchivePoints(m, es, embed), m)
    decreases |es|
  {
    if es != [] && es[0].member.Case? {
      var m' := Ingest(m, es[0].member.record, embed);
      ArchiveGrows(m', es[1..], embed);
    }
  }

  /** A run only adds points: nothing stored is ever changed or removed. */
  lemma {:induction false} RunGrows(m: map<int, Point>, archives: seq<Archive>, embed: string -> Vector)
    ensures Extends(RunPoints(m, archives, embed), m)
    decreases |archives|
  {
    if archives != [] && archives[0].opens {
      var m' := ArchivePoints(m, archives[0].entries, embed);
      ArchiveGrows(m, archives[0].entries, embed);
      RunGrows(m', archives[1..], embed);
    }
  }

  /**
   * Re-ingesting an archive into any store that already extends the result
   * of ingesting it changes nothing: each case is either already stored or
   * rejected again.
   */
  lemma {:induction false} ArchiveStable(m1: map<int, Point>, m2: map<int, Point>, es: seq<Entry>, embed: string -> Vector)
    requires Extends(m2, ArchivePoints(m1, es, embed))
    ensures ArchivePoints(m2, es, embed) == m2
    decreases |es|
  {
    if es != [] && es[0].member.Case? {
      var c := es[0].member.record;
      var m1' := Ingest(m1, c, embed);
      ArchiveGrows(m1', es[1..], embed);
      assert Extends(m2, m1');
      assert Ingest(m2, c, embed) == m2;
      ArchiveStable(m1', m2, es[1..], embed);
    }
  }

  lemma {:induction false} RunStable(m1: map<int, Point>, m2: map<int, Point>, archives: seq<Archive>, embed: string -> Vector)
    requires Extends(m2, RunPoints(m1, archives, embed))
    ensures RunPoints(m2, archives, embed) == m2
    decreases |archives|
  {
    if archives != [] && archives[0].opens {
      var es := archives[0].entries;
      var m1' := ArchivePoints(m1, es, embed);
      RunGrows(m1', archives[1..], embed);
      ArchiveStable(m1, m2, es, embed);
      RunStable(m1', m2, archives[1..], embed);
    }
  }

  /** Running `train` twice over the same archives leaves the store as one run does. */
  lemma RunIdempotent(m: map<int, Point>, archives: seq<Archive>, embed: string -> Vector)
    ensures RunPoints(RunPoints(m, archives, embed), archives, embed) == RunPoints(m, archives, embed)
  {
    RunStable(m, RunPoints(m, archives, embed), archives, embed);
  }

  /** Archives are handled one after the other: a run over `a + b` is a run over `a`, then over `b`. */
  lemma {:induction false} RunSequential(m: map<int, Point>, a: seq<Archive>, b: seq<Archive>, embed: string -> Vector)
    requires forall i :: 0 <= i < |a| ==> a[i].opens
    ensures RunPoints(m, a + b, embed) == RunPoints(RunPoints(m, a, embed), b, embed)
    ensures RunTicks(a + b) == RunTicks(a) + RunTicks(b)
    decreases |a|
  {
    if a != [] {
      assert (a + b)[1..] == a[1..] + b;
      RunSequential(ArchivePoints(m, a[0].entries, embed), a[1..], b, embed);
    } else {
      assert a + b == b;
    }
  }

  // ---------------------------------------------------------------------
  // Progress counting
  // ---------------------------------------------------------------------

  /**
   * When the first `k` entries are case records and entry `k` (if any) is
   * corrupt, the archive ticks `k + 1` times (`k` completed `build_db`
   * calls and the caught `BadZipFile`), or once per entry when none is
   * corrupt; either way, once per `build_db` invocation.
   */
  lemma {:induction false} ArchiveTicksCount(es: seq<Entry>, k: nat)
    requires k <= |es|
    requires forall i :: 0 <= i < k ==> es[i].member.Case?
    requires k < |es| ==> es[k].member.Corrupt?
    ensures ArchiveTicks(es) == if k < |es| then k + 1 else |es|
    decreases k
  {
    if k > 0 {
      assert forall i :: 0 <= i < k - 1 ==> es[1..][i] == es[i + 1];
      ArchiveTicksCount(es[1..], k - 1);
    }
  }

  function TotalEntries(archives: seq<Archive>): nat
  {
    if archives == [] then 0 else |archives[0].entries| + TotalEntries(archives[1..])
  }

  /** With no failing archive and no corrupt entry, the counter ends at the number of case files. */
  lemma {:induction false} RunTicksAllEntries(archives: seq<Archive>)
    requires forall i :: 0 <= i < |archives| ==> archives[i].opens
    requires forall i, j :: 0 <= i < |archives| && 0 <= j < |archives[i].entries| ==>
               archives[i].entries[j].member.Case?
    ensures RunTicks(archives) == TotalEntries(archives)
    decreases |archives|
  {
    if archives != [] {
      ArchiveTicksCount(archives[0].entries, |archives[0].entries|);
      assert forall i :: 0 < i < |archives| ==> archives[1..][i - 1] == archives[i];
      RunTicksAllEntries(archives[1..]);
    }
  }
}
