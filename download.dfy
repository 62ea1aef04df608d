/**
 * src/legal_vec/data/download.py: which volumes are fetched, where each
 * lands, and the resumable download of one volume over a file system.
 *
 * The file system is a `FileSystem` object holding a map from path (taken
 * relative to the downloads directory) to file contents.  The HTTP server
 * is the parameter `server`: what it sends back for a request.
 */
module Download {
  import opened Wrappers
  import opened Records

  newtype byte = x: int | 0 <= x < 256

  type Path = string

  // ---------------------------------------------------------------------
  // Volume selection
  // ---------------------------------------------------------------------

  /** `set(j["id"] for j in jurisdictions)`. */
  function JurisdictionIds(js: seq<JurisdictionFull>): (r: set<int>)
    ensures forall id :: id in r <==> exists i :: 0 <= i < |js| && js[i].id == id
  {
    set i | 0 <= i < |js| :: js[i].id
  }

  /** The copies of `v` the generator yields for the entries `jurs` of its jurisdiction list. */
  function Yields(v: ReporterVolume, jurs: seq<Jurisdiction>, ids: set<int>): (r: seq<ReporterVolume>)
    ensures forall k :: 0 <= k < |r| ==> r[k] == v
    ensures r != [] ==> exists j :: 0 <= j < |jurs| && jurs[j].id in ids
    decreases |jurs|
  {
    if jurs == [] then []
    else (if jurs[0].id in ids then [v] else []) + Yields(v, jurs[1..], ids)
  }

  /**
   * The `volumes` generator: for each volume in file order, for each of
   * its jurisdictions whose id is selected, the volume.
   */
  function Volumes(vs: seq<ReporterVolume>, ids: set<int>): (r: seq<ReporterVolume>)
    ensures forall k :: 0 <= k < |r| ==>
              r[k] in vs && exists j :: 0 <= j < |r[k].jurisdictions| && r[k].jurisdictions[j].id in ids
    decreases |vs|
  {
    if vs == [] then []
    else Yields(vs[0], vs[0].jurisdictions, ids) + Volumes(vs[1..], ids)
  }

  /** Positions of `jurs` whose id is selected. */
  function MatchSet(jurs: seq<Jurisdiction>, ids: set<int>): set<nat>
  {
    set i: nat | i < |jurs| && jurs[i].id in ids
  }

  /** How many entries of `v`'s jurisdiction list are selected. */
  function MatchCount(v: ReporterVolume, ids: set<int>): nat
  {
    |MatchSet(v.jurisdictions, ids)|
  }

  // ---------------------------------------------------------------------
  // Paths and the request
  // ---------------------------------------------------------------------

  /** `<slug>/<vol>.zip` under the downloads directory. */
  function OutputPath(slug: string, vol: string): Path
  {
    slug + "/" + vol + ".zip"
  }

  /** `<slug>/<vol>.zip.dl`, the partial download. */
  function PartialPath(slug: string, vol: string): (p: Path)
    ensures p == OutputPath(slug, vol) + ".dl"
  {
    var p := slug + "/" + vol + ".zip.dl";
    assert p == (slug + "/" + vol + ".zip") + ".dl";
    p
  }

  /** The URL path `/<slug>/<vol>.zip`, relative to the archive host. */
  function Url(slug: string, vol: string): (u: string)
    ensures u == "/" + OutputPath(slug, vol)
  {
    var u := "/" + slug + "/" + vol + ".zip";
    assert u == "/" + (slug + "/" + vol + ".zip");
    u
  }

  function VolumeOutput(v: ReporterVolume): Path
  {
    OutputPath(v.reporterSlug, v.volumeNumber)
  }

  /** The archive of a volume lies under its reporter's slug and ends in `.zip`. */
  lemma OutputPathShape(slug: string, vol: string)
    ensures var p := OutputPath(slug, vol);
            |p| == |slug| + |vol| + 5 && p[..|slug|] == slug && p[|slug|] == '/' && p[|p| - 4..] == ".zip"
  {
  }

  /** No partial path of any volume is the output path of any volume. */
  lemma PartialNeverOutput(slug: string, vol: string, slug': string, vol': string)
    ensures PartialPath(slug, vol) != OutputPath(slug', vol')
  {
    var p, o := PartialPath(slug, vol), OutputPath(slug', vol');
    assert p[|p| - 1] == 'l';
    assert o[|o| - 1] == 'p';
  }

  // Python's `str(n)` for an integer, and its inverse.

  function DigitChar(d: nat): char
    requires d < 10
  {
    "0123456789"[d]
  }

  predicate IsDigit(ch: char)
  {
    '0' <= ch <= '9'
  }

  predicate AllDigits(s: string)
  {
    forall k :: 0 <= k < |s| ==> IsDigit(s[k])
  }

  function NatString(n: nat): (s: string)
    ensures s != [] && AllDigits(s)
  {
    if n < 10 then [DigitChar(n)] else NatString(n / 10) + [DigitChar(n % 10)]
  }

  /** `str(n)`: decimal digits, with a leading `-` when negative. */
  function IntString(n: int): string
  {
    if n < 0 then "-" + NatString(-n) else NatString(n)
  }

  function ParseNat(s: string): nat
    requires AllDigits(s)
  {
    if s == [] then 0
    else 10 * ParseNat(s[..|s| - 1]) + ((s[|s| - 1] as int) - ('0' as int))
  }

  function ParseInt(s: string): Option<int>
  {
    if |s| > 1 && s[0] == '-' && AllDigits(s[1..]) then
      var magnitude: int := ParseNat(s[1..]);
      Some(-magnitude)
    else if s != [] && AllDigits(s) then Some(ParseNat(s))
    else None
  }

  /** The `Range` header value `f"bytes={offset}-"`. */
  function RangeHeader(offset: int): (h: string)
    ensures |h| >= 8 && h[..6] == "bytes=" && h[|h| - 1] == '-'
  {
    "bytes=" + IntString(offset) + "-"
  }

  /** The offset a server reads back from a `bytes=<offset>-` header. */
  function ParseRange(h: string): Option<int>
  {
    if |h| >= 7 && h[..6] == "bytes=" && h[|h| - 1] == '-' then ParseInt(h[6..|h| - 1]) else None
  }

  /** Contents of `p`, or nothing when it does not exist. */
  function Held(files: map<Path, seq<byte>>, p: Path): seq<byte>
  {
    if p in files then files[p] else []
  }

  /**
   * Where to resume, as download.py:33 writes it: one less than the size
   * of the partial file, or 0 when there is none.
   */
  function ResumeOffsetAsWritten(files: map<Path, seq<byte>>, dl: Path): (r: int)
    ensures r == ResumeOffset(files, dl) - (if dl in files then 1 else 0)
  {
    if dl in files then |files[dl]| - 1 else 0
  }

  /**
   * Where to resume: the index of the first byte the partial file does not
   * hold yet, which is its size.
   */
  function ResumeOffset(files: map<Path, seq<byte>>, dl: Path): nat
  {
    |Held(files, dl)|
  }

  datatype Request = Request(url: string, range: string)

  /** The request `download_volume` sends for a volume, given the files present. */
  function RequestFor(files: map<Path, seq<byte>>, slug: string, vol: string): Request
  {
    Request(Url(slug, vol), RangeHeader(ResumeOffset(files, PartialPath(slug, vol))))
  }

  /**
   * A response to one request.  `streamed` is false when the request fails
   * before the partial file is opened: `client.stream` raises, or the
   * response has no `Content-Length`.  Otherwise `chunks` is the body as
   * `iter_bytes` yields it and `complete` says whether the stream ended
   * normally (`false`: the transfer failed after these chunks).
   */
  datatype Transfer = Transfer(streamed: bool, chunks: seq<seq<byte>>, complete: bool)

  /** The transfer reached the partial file and the stream ended normally. */
  predicate Succeeds(t: Transfer)
  {
    t.streamed && t.complete
  }

  /** All chunks, in order. */
  function Concat(chunks: seq<seq<byte>>): seq<byte>
  {
    if chunks == [] then [] else Concat(chunks[..|chunks| - 1]) + chunks[|chunks| - 1]
  }

  /** The chunks before `i`, in order: none for `i == 0`, one more for each step. */
  lemma ConcatPrefix(chunks: seq<seq<byte>>, i: nat)
    requires i <= |chunks|
    ensures i == 0 ==> Concat(chunks[..i]) == []
    ensures i > 0 ==> Concat(chunks[..i]) == Concat(chunks[..i - 1]) + chunks[i - 1]
  {
    if i > 0 {
      assert chunks[..i][..i - 1] == chunks[..i - 1];
    }
  }

  // ---------------------------------------------------------------------
  // The file system and download_volume
  // ---------------------------------------------------------------------

  class FileSystem {
    var files: map<Path, seq<byte>>

    constructor (initial: map<Path, seq<byte>>)
      ensures files == initial
    {
      files := initial;
    }

    method Exists(p: Path) returns (b: bool)
      ensures b <==> p in files
    {
      b := p in files;
    }

    /** `open(p, mode="ab")`: creates an empty file when there is none. */
    method OpenAppend(p: Path)
      modifies this
      ensures files == old(files)[p := Held(old(files), p)]
    {
      files := files[p := Held(files, p)];
    }

    /** `output.write(data)` on a file opened for appending. */
    method Append(p: Path, data: seq<byte>)
      requires p in files
      modifies this
      ensures files == old(files)[p := old(files)[p] + data]
    {
      files := files[p := files[p] + data];
    }

    /** `src.rename(dst)`: `dst` takes the contents of `src`, which is gone. */
    method Rename(src: Path, dst: Path)
      requires src in files
      modifies this
      ensures files == (old(files) - {src})[dst := old(files)[src]]
    {
      files := (files - {src})[dst := files[src]];
    }
  }

  /**
   * `for data in r.iter_bytes(): output.write(data)` on the partial file,
   * already open for appending: every chunk, in order, goes to its end.
   */
  method WriteChunks(fs: FileSystem, p: Path, chunks: seq<seq<byte>>)
    requires p in fs.files
    modifies fs
    ensures fs.files == old(fs.files)[p := old(fs.files)[p] + Concat(chunks)]
  {
    ghost var held := fs.files[p];
    ConcatPrefix(chunks, 0);
    assert held + Concat(chunks[..0]) == held;
    var i := 0;
    while i < |chunks|
      invariant 0 <= i <= |chunks|
      invariant fs.files == old(fs.files)[p := held + Concat(chunks[..i])]
    {
      ConcatPrefix(chunks, i + 1);
      assert held + Concat(chunks[..i + 1]) == (held + Concat(chunks[..i])) + chunks[i];
      fs.Append(p, chunks[i]);
      i := i + 1;
    }
    assert chunks[..i] == chunks;
  }

  datatype DownloadOutcome =
    | AlreadyPresent
    | Completed(request: Request)
      /** The transfer failed; its error leaves `download_volume` and ends `main`. */
    | Interrupted(request: Request)

  /** The outcome of one `download_volume` call and the files it leaves. */
  datatype Step = Step(outcome: DownloadOutcome, files: map<Path, seq<byte>>)

  /**
   * What `download_volume` does for volume `vol` of `slug` when the files
   * are `files`: nothing when the archive exists; otherwise it requests the
   * rest of the volume; a request that fails before the partial file is
   * opened changes nothing; otherwise what arrives is appended to the
   * partial file, and on a complete transfer the partial file is renamed
   * to the archive.
   */
  function VolumeStep(files: map<Path, seq<byte>>, slug: string, vol: string, server: Request -> Transfer): Step
  {
    if OutputPath(slug, vol) in files then Step(AlreadyPresent, files)
    else
      var dl, req := PartialPath(slug, vol), RequestFor(files, slug, vol);
      if !server(req).streamed then Step(Interrupted(req), files)
      else
        var data := Held(files, dl) + Concat(server(req).chunks);
        if server(req).complete then Step(Completed(req), (files - {dl})[OutputPath(slug, vol) := data])
        else Step(Interrupted(req), files[dl := data])
  }

  /**
   * `download_volume(reporter_slug, vol, bar)` over the file system: its
   * outcome and the files it leaves are those of `VolumeStep`.  Resumes at
   * `ResumeOffset`, not at the offset download.py:33 computes.
   */
  method DownloadVolume(fs: FileSystem, slug: string, vol: string, server: Request -> Transfer)
    returns (outcome: DownloadOutcome)
    modifies fs
    ensures Step(outcome, fs.files) == VolumeStep(old(fs.files), slug, vol, server)
  {
    var outputPath := OutputPath(slug, vol);
    var dlPath := PartialPath(slug, vol);
    var done := fs.Exists(outputPath);
    if done {
      return AlreadyPresent;
    }
    var partial := fs.Exists(dlPath);
    var downloaded := if partial then |fs.files[dlPath]| else 0;
    var request := Request(Url(slug, vol), RangeHeader(downloaded));
    var response := server(request);
    if !response.streamed {
      return Interrupted(request);
    }
    fs.OpenAppend(dlPath);
    WriteChunks(fs, dlPath, response.chunks);
    if !response.complete {
      return Interrupted(request);
    }
    fs.Rename(dlPath, outputPath);
    outcome := Completed(request);
  }

  // ---------------------------------------------------------------------
  // main: the run over all selected volumes
  // ---------------------------------------------------------------------

  /**
   * What a run of `main` over `vols` ends with: the files, the `skipped`
   * flag of every tick of the volume bar (`not downloaded`), and whether a
   * transfer failed, which ends the run with its error.
   */
  datatype RunEnd = RunEnd(files: map<Path, seq<byte>>, skipped: seq<bool>, failed: bool)

  /** The volumes handled in order, one tick per finished call, stopping at the first failed transfer. */
  function Run(files: map<Path, seq<byte>>, vols: seq<ReporterVolume>, server: Request -> Transfer): (r: RunEnd)
    ensures |r.skipped| <= |vols|
    decreases |vols|
  {
    if vols == [] then RunEnd(files, [], false)
    else
      var step := VolumeStep(files, vols[0].reporterSlug, vols[0].volumeNumber, server);
      if step.outcome.Interrupted? then RunEnd(step.files, [], true)
      else
        var rest := Run(step.files, vols[1..], server);
        RunEnd(rest.files, [!step.outcome.Completed?] + rest.skipped, rest.failed)
  }

  /** `p` is the partial path of none of `vols`. */
  predicate NoPartialOf(p: Path, vols: seq<ReporterVolume>)
  {
    forall i :: 0 <= i < |vols| ==> p != PartialPath(vols[i].reporterSlug, vols[i].volumeNumber)
  }

  /** An output path is the partial path of no volume. */
  lemma OutputNoPartial(q: Path, vols: seq<ReporterVolume>, slug: string, vol: string)
    requires q == OutputPath(slug, vol)
    ensures NoPartialOf(q, vols)
  {
    forall i | 0 <= i < |vols| ensures q != PartialPath(vols[i].reporterSlug, vols[i].volumeNumber) {
      PartialNeverOutput(vols[i].reporterSlug, vols[i].volumeNumber, slug, vol);
    }
  }

  /**
   * One call keeps every file other than the volume's partial file, and
   * unless it fails, the volume's archive exists afterwards; an output
   * path exists afterwards exactly when it did before or it is this
   * volume's.  A request that fails before the partial file is opened
   * leaves every file as it was, so no partial file appears.
   */
  lemma StepEffect(files: map<Path, seq<byte>>, v: ReporterVolume, server: Request -> Transfer)
    ensures var step := VolumeStep(files, v.reporterSlug, v.volumeNumber, server);
            forall p :: p in files && p != PartialPath(v.reporterSlug, v.volumeNumber) ==>
              p in step.files && step.files[p] == files[p]
    ensures var step := VolumeStep(files, v.reporterSlug, v.volumeNumber, server);
            !step.outcome.Interrupted? ==> VolumeOutput(v) in step.files
    ensures var step := VolumeStep(files, v.reporterSlug, v.volumeNumber, server);
            VolumeOutput(v) !in files && !server(RequestFor(files, v.reporterSlug, v.volumeNumber)).streamed ==>
              step.outcome.Interrupted? && step.files == files
    ensures var step := VolumeStep(files, v.reporterSlug, v.volumeNumber, server);
            forall w: ReporterVolume {:trigger VolumeOutput(w) in step.files} ::
              VolumeOutput(w) in step.files <==>
                VolumeOutput(w) in files || (!step.outcome.Interrupted? && VolumeOutput(w) == VolumeOutput(v))
  {
    var step := VolumeStep(files, v.reporterSlug, v.volumeNumber, server);
    forall w: ReporterVolume
      ensures VolumeOutput(w) in step.files <==>
                VolumeOutput(w) in files || (!step.outcome.Interrupted? && VolumeOutput(w) == VolumeOutput(v))
    {
      PartialNeverOutput(v.reporterSlug, v.volumeNumber, w.reporterSlug, w.volumeNumber);
    }
  }

  /** A run keeps every file that is no volume's partial file. */
  lemma {:induction false} RunKeepsFiles(files: map<Path, seq<byte>>, vols: seq<ReporterVolume>, server: Request -> Transfer, p: Path)
    requires p in files && NoPartialOf(p, vols)
    ensures p in Run(files, vols, server).files && Run(files, vols, server).files[p] == files[p]
    decreases |vols|
  {
    if vols != [] {
      var step := VolumeStep(files, vols[0].reporterSlug, vols[0].volumeNumber, server);
      StepEffect(files, vols[0], server);
      if !step.outcome.Interrupted? {
        assert NoPartialOf(p, vols[1..]) by {
          forall i | 0 <= i < |vols[1..]| ensures p != PartialPath(vols[1..][i].reporterSlug, vols[1..][i].volumeNumber) {
            assert vols[1..][i] == vols[i + 1];
          }
        }
        RunKeepsFiles(step.files, vols[1..], server, p);
      }
    }
  }

  /** One tick per volume until the first failed transfer, and none after it. */
  lemma {:induction false} RunTickCount(files: map<Path, seq<byte>>, vols: seq<ReporterVolume>, server: Request -> Transfer)
    ensures Run(files, vols, server).failed <==> |Run(files, vols, server).skipped| < |vols|
    decreases |vols|
  {
    if vols != [] {
      var step := VolumeStep(files, vols[0].reporterSlug, vols[0].volumeNumber, server);
      if !step.outcome.Interrupted? {
        RunTickCount(step.files, vols[1..], server);
      }
    }
  }

  /** A server whose transfers all complete lets the run tick every volume. */
  lemma {:induction false} CompleteServerNeverFails(files: map<Path, seq<byte>>, vols: seq<ReporterVolume>, server: Request -> Transfer)
    requires forall r: Request :: Succeeds(server(r))
    ensures !Run(files, vols, server).failed
    decreases |vols|
  {
    if vols != [] {
      CompleteServerNeverFails(VolumeStep(files, vols[0].reporterSlug, vols[0].volumeNumber, server).files, vols[1..], server);
    }
  }

  /** An earlier volume than `vols[i]` has the same archive. */
  predicate SeenBefore(vols: seq<ReporterVolume>, i: int)
    requires 0 <= i < |vols|
  {
    exists j :: 0 <= j < i && VolumeOutput(vols[j]) == VolumeOutput(vols[i])
  }

  /** Seen before position `i` means seen at the front, or seen before it among the rest. */
  lemma SeenBeforeShift(vols: seq<ReporterVolume>, i: int)
    requires 0 < i < |vols|
    ensures SeenBefore(vols, i) <==>
              VolumeOutput(vols[0]) == VolumeOutput(vols[i]) || SeenBefore(vols[1..], i - 1)
  {
    var rest := vols[1..];
    assert rest[i - 1] == vols[i];
    if SeenBefore(rest, i - 1) {
      var j :| 0 <= j < i - 1 && VolumeOutput(rest[j]) == VolumeOutput(rest[i - 1]);
      assert VolumeOutput(vols[j + 1]) == VolumeOutput(vols[i]);
    }
    if SeenBefore(vols, i) {
      var j :| 0 <= j < i && VolumeOutput(vols[j]) == VolumeOutput(vols[i]);
      if j > 0 {
        assert VolumeOutput(rest[j - 1]) == VolumeOutput(rest[i - 1]);
      }
    }
  }

  /**
   * A tick is marked skipped exactly when the volume's archive existed
   * before the run or an earlier volume of the run has the same archive.
   */
  lemma {:induction false} RunSkippedExactly(files: map<Path, seq<byte>>, vols: seq<ReporterVolume>, server: Request -> Transfer)
    ensures var skipped := Run(files, vols, server).skipped;
            forall i :: 0 <= i < |skipped| ==> (skipped[i] <==> VolumeOutput(vols[i]) in files || SeenBefore(vols, i))
    decreases |vols|
  {
    if vols != [] {
      var step := VolumeStep(files, vols[0].reporterSlug, vols[0].volumeNumber, server);
      if !step.outcome.Interrupted? {
        var rest := vols[1..];
        RunSkippedExactly(step.files, rest, server);
        StepEffect(files, vols[0], server);
        var skipped := Run(files, vols, server).skipped;
        var tail := Run(step.files, rest, server).skipped;
        assert skipped == [!step.outcome.Completed?] + tail;
        assert !SeenBefore(vols, 0);
        forall i | 0 < i < |skipped|
          ensures skipped[i] <==> VolumeOutput(vols[i]) in files || SeenBefore(vols, i)
        {
          assert skipped[i] == tail[i - 1] && rest[i - 1] == vols[i];
          SeenBeforeShift(vols, i);
        }
      }
    }
  }

  /** The archive of every ticked volume exists when the run ends. */
  lemma {:induction false} RunOutputsExist(files: map<Path, seq<byte>>, vols: seq<ReporterVolume>, server: Request -> Transfer)
    ensures forall i :: 0 <= i < |Run(files, vols, server).skipped| ==> VolumeOutput(vols[i]) in Run(files, vols, server).files
    decreases |vols|
  {
    if vols != [] {
      var step := VolumeStep(files, vols[0].reporterSlug, vols[0].volumeNumber, server);
      if !step.outcome.Interrupted? {
        var rest := vols[1..];
        StepEffect(files, vols[0], server);
        RunOutputsExist(step.files, rest, server);
        OutputNoPartial(VolumeOutput(vols[0]), rest, vols[0].reporterSlug, vols[0].volumeNumber);
        RunKeepsFiles(step.files, rest, server, VolumeOutput(vols[0]));
        forall i | 1 <= i < |Run(files, vols, server).skipped|
          ensures VolumeOutput(vols[i]) in Run(files, vols, server).files
        {
          assert rest[i - 1] == vols[i];
        }
      }
    }
  }

  /** A run is its first call followed, unless that call fails, by the run over the rest. */
  lemma RunAfterStep(files: map<Path, seq<byte>>, vols: seq<ReporterVolume>, server: Request -> Transfer,
                     outcome: DownloadOutcome, files': map<Path, seq<byte>>)
    requires vols != []
    requires Step(outcome, files') == VolumeStep(files, vols[0].reporterSlug, vols[0].volumeNumber, server)
    ensures outcome.Interrupted? ==> Run(files, vols, server) == RunEnd(files', [], true)
    ensures !outcome.Interrupted? ==>
              var rest := Run(files', vols[1..], server);
              Run(files, vols, server) == RunEnd(rest.files, [!outcome.Completed?] + rest.skipped, rest.failed)
  {
  }

  /** Ticks already made, then the ticks of the rest of the run. */
  predicate RunResumes(done: seq<bool>, r: RunEnd, whole: RunEnd)
  {
    whole == RunEnd(r.files, done + r.skipped, r.failed)
  }

  lemma RunResumesStep(done: seq<bool>, b: bool, r: RunEnd, whole: RunEnd)
    requires RunResumes(done, RunEnd(r.files, [b] + r.skipped, r.failed), whole)
    ensures RunResumes(done + [b], r, whole)
  {
    assert done + ([b] + r.skipped) == (done + [b]) + r.skipped;
  }

  /** The loop of `main` over the listed volumes: one `download_volume` call per volume until one fails. */
  method DownloadAll(fs: FileSystem, vols: seq<ReporterVolume>, server: Request -> Transfer)
    returns (skipped: seq<bool>, aborted: bool)
    modifies fs
    ensures RunEnd(fs.files, skipped, aborted) == Run(old(fs.files), vols, server)
  {
    ghost var whole := Run(fs.files, vols, server);
    skipped, aborted := [], false;
    var k := 0;
    while k < |vols|
      invariant 0 <= k <= |vols|
      invariant RunResumes(skipped, Run(fs.files, vols[k..], server), whole)
    {
      var v := vols[k];
      assert vols[k..][0] == v && vols[k..][1..] == vols[k + 1..];
      ghost var before := fs.files;
      var outcome := DownloadVolume(fs, v.reporterSlug, v.volumeNumber, server);
      RunAfterStep(before, vols[k..], server, outcome, fs.files);
      if outcome.Interrupted? {
        return skipped, true;
      }
      RunResumesStep(skipped, !outcome.Completed?, Run(fs.files, vols[k + 1..], server), whole);
      skipped := skipped + [!outcome.Completed?];
      k := k + 1;
    }
  }

  /**
   * `main`: list the selected volumes, download each in order, and tick the
   * volume bar once per volume with `skipped` set when nothing was
   * downloaded.  A failed transfer ends the run (`aborted`).
   */
  method RunDownloads(fs: FileSystem, jurisdictions: seq<JurisdictionFull>, volumeRecords: seq<ReporterVolume>,
                      server: Request -> Transfer)
    returns (vols: seq<ReporterVolume>, skipped: seq<bool>, aborted: bool)
    modifies fs
    ensures vols == Volumes(volumeRecords, JurisdictionIds(jurisdictions))
    ensures RunEnd(fs.files, skipped, aborted) == Run(old(fs.files), vols, server)
    ensures |skipped| <= |vols| && (aborted <==> |skipped| < |vols|)
    ensures (forall r: Request :: Succeeds(server(r))) ==> !aborted
    ensures forall i :: 0 <= i < |skipped| ==>
              (skipped[i] <==> VolumeOutput(vols[i]) in old(fs.files) || SeenBefore(vols, i))
    ensures forall i :: 0 <= i < |skipped| ==> VolumeOutput(vols[i]) in fs.files
    ensures forall p :: p in old(fs.files) && NoPartialOf(p, vols) ==> p in fs.files && fs.files[p] == old(fs.files)[p]
  {
    vols := Volumes(volumeRecords, JurisdictionIds(jurisdictions));
    ghost var initial := fs.files;
    skipped, aborted := DownloadAll(fs, vols, server);
    RunTickCount(initial, vols, server);
    if forall r: Request :: Succeeds(server(r)) {
      CompleteServerNeverFails(initial, vols, server);
    }
    RunSkippedExactly(initial, vols, server);
    RunOutputsExist(initial, vols, server);
    forall p | p in initial && NoPartialOf(p, vols) ensures p in fs.files && fs.files[p] == initial[p] {
      RunKeepsFiles(initial, vols, server, p);
    }
  }
}
