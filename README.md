# legal-vec in Dafny

legal-vec builds a semantic search index over United States case law.
Two programs make up its core:

- `download` (src/legal_vec/data/download.py) fetches volume archives from the
  case-law archive host. It selects every volume that covers a jurisdiction
  with a local jurisdiction file. It writes each volume to
  `<reporter_slug>/<volume>.zip` and skips volumes already present. An
  unfinished transfer resumes from a `.zip.dl` partial file.
- `train` (src/legal_vec/gen.py) walks the downloaded archives. For every case
  record under `json/` it calls `build_db`. That function skips a case already
  in the vector store. Otherwise it picks one opinion by type rank, drops texts
  shorter than 150 characters or 5 lines, embeds the text and upserts one
  point carrying the case metadata.

This project models both programs and proves what they promise:

- `Records` holds the JSON record shapes.
- `Lines` holds Python's `str.splitlines()`.
- `Gen` models `build_db`. The vector store is a `Store` object whose
  methods update a map of points.
- `Gen` also models the ingestion loop of `train`. Methods `IngestArchive` and
  `Train` are proved against the specification functions `ArchivePoints`,
  `RunPoints`, `RunTicks`, `RunLog` and `RunAborted`.
- `Download` models volume selection and `download_volume` over a
  `FileSystem` object. It also models `main`'s loop over the volumes.
- `GenProperties` and `DownloadProperties` hold the lemmas.

The embedding model is the parameter `embed`. The HTTP server is the
parameter `server`, a function from request to response.

Some behaviour of the code worth stating:

- A case with a single opinion still has that opinion's type filtered
  (gen.py:47-51). A lone dissent is rejected, not stored.
- The stored payload carries no opinion type (gen.py:71-82).
- Each case is checked against the store (gen.py:28) and upserted on its own
  (gen.py:64-85). Nothing is batched.
- An archive that `zipfile.ZipFile` cannot open ends the whole run. That call
  (gen.py:113) sits outside the `try` (gen.py:115).
- Volume records carry a `jurisdictions` list, which download.py:21 reads.

## Model

| member | source | states |
|---|---|---|
| Lines.FirstBreak | src/legal_vec/gen.py:58 | the first line boundary of a text: no boundary before it, a boundary at it unless it is the end |
| Lines.SplitLines | src/legal_vec/gen.py:58 | `splitlines()`: at most one segment per character, no segments exactly for the empty text, no segment contains a boundary |
| Lines.LineEndsSkip | src/legal_vec/gen.py:58 | a prefix with no boundary closes no line |
| Lines.SplitLinesCount | src/legal_vec/gen.py:58 | the segment count is the number of line-closing characters (`\r\n` counted once), plus one when text follows the last boundary |
| Lines.SplitLinesNewline | src/legal_vec/gen.py:58 | a boundary-free line ended by `\n` becomes exactly one segment |
| Lines.SplitLinesSingle | src/legal_vec/gen.py:58 | a non-empty text with no boundary is one segment |
| Lines.TrailingBreakExample | src/legal_vec/gen.py:58 | a final `\n` opens no empty segment |
| Lines.CrLfExample | src/legal_vec/gen.py:58 | `\r\n` is a single boundary |
| Lines.OtherBreaksExample | src/legal_vec/gen.py:58 | a lone `\r` and U+2028 are boundaries |
| Lines.EmptyLineExample | src/legal_vec/gen.py:58 | two consecutive `\n` enclose an empty segment |
| Gen.CitationLabel | src/legal_vec/gen.py:32-38 | the `cite` of the first citation of type "official", or the decision date when there is none |
| Gen.ChooseOpinion | src/legal_vec/gen.py:47-55 | no choice (the `IndexError` path) exactly when no opinion has a type in the rank table; otherwise the choice has the least rank and is the earliest of that rank, as the head of a stable sort |
| Gen.OpinionTypes | src/legal_vec/gen.py:53 | the type of every opinion, in order, one per opinion |
| Gen.Cites | src/legal_vec/gen.py:74 | the `cite` of every citation, in order, one per citation |
| Gen.LoadCase | src/legal_vec/gen.py:42-61 | rejected as empty exactly when there are no opinions; rejected with the label and all types exactly when none is recognised; accepted only for the preferred opinion with 5+ segments and 150+ characters; too short only when the preferred opinion fails that floor |
| Gen.MakePoint | src/legal_vec/gen.py:63-85 | the point has the case id as id and `case_id`, the embedded vector, and every citation's `cite` in order |
| Gen.Outcome | src/legal_vec/gen.py:28-61 | "already stored" exactly when the id is in the store; "inserted" exactly when the id is new and the case is accepted; "skipped" exactly when the id is new and the case is rejected, for the rejection's reason |
| Gen.Report | src/legal_vec/gen.py:52-55 | at most one message; a message exactly when the case was skipped because no opinion type is recognised, and it names that citation and those types |
| Gen.Store.constructor | src/legal_vec/gen.py:90 | the store reopened from `./case-db` holds exactly the points earlier runs left there, each filed under its own id |
| Gen.Store.Retrieve | src/legal_vec/gen.py:28 | the lookup succeeds exactly when a point with that id is stored |
| Gen.Store.Upsert | src/legal_vec/gen.py:64-85 | the point replaces or adds the entry under its id; nothing else changes; points stay filed under their ids |
| Gen.Ingest | src/legal_vec/gen.py:25-85 | a stored id or a rejected case leaves the store as it was; no stored point changes; only the case's id can be added, and when accepted it holds the point for the chosen opinion's embedded text |
| Gen.BuildDb | src/legal_vec/gen.py:25-85 | the method leaves the store as `Ingest` says and returns the outcome `Outcome` gives |
| Gen.IngestArchive | src/legal_vec/gen.py:115-122 | the entries in order, one tick each, stopping after the first one whose reading raises `BadZipFile`, which is reported and ticked once |
| Gen.Train | src/legal_vec/gen.py:111-123 | the archives in order; the store, tick count and messages are those of the specification functions; the run ends at the first archive that does not open |
| GenProperties.PreferredUnique | src/legal_vec/gen.py:48-51 | at most one opinion is the head of the sorted, filtered list |
| GenProperties.LoneUnrecognisedOpinionRejected | src/legal_vec/gen.py:47-55 | a single opinion of an unknown type is rejected, and the message lists its type |
| GenProperties.RecognisedBeatsUnrecognised | src/legal_vec/gen.py:48-51 | a majority opinion after a dissent is chosen |
| GenProperties.RankThenPosition | src/legal_vec/gen.py:15-22 | from concurrence, unanimous, majority, the unanimous one is chosen: best rank, earliest among equals |
| GenProperties.BlockStep | src/legal_vec/gen.py:58 | one more `\n`-terminated line adds one segment |
| GenProperties.BlockSegments | src/legal_vec/gen.py:58 | `n` lines ended by `\n` add `n` segments to whatever follows |
| GenProperties.ContentFloorAccepts | src/legal_vec/gen.py:60-61 | exactly 150 characters in exactly 5 segments passes the floor |
| GenProperties.ContentFloorRejectsShort | src/legal_vec/gen.py:60-61 | 149 characters in 5 segments fails it |
| GenProperties.ContentFloorRejectsFewLines | src/legal_vec/gen.py:60-61 | 150 characters in 4 segments fails it |
| GenProperties.ArchiveGrows | src/legal_vec/gen.py:115-119 | ingesting an archive keeps every stored point unchanged |
| GenProperties.RunGrows | src/legal_vec/gen.py:111-123 | a run never changes or removes a stored point |
| GenProperties.ArchiveStable | src/legal_vec/gen.py:28-29 | re-ingesting an archive into a store that already holds its result changes nothing |
| GenProperties.RunStable | src/legal_vec/gen.py:28-29 | the same for a whole run |
| GenProperties.RunIdempotent | src/legal_vec/gen.py:111-123 | running `train` twice over the same archives stores what one run stores |
| GenProperties.RunSequential | src/legal_vec/gen.py:112-123 | a run over `a + b` equals a run over `a` then a run over `b`, in points and ticks, when every archive of `a` opens |
| GenProperties.ArchiveTicksCount | src/legal_vec/gen.py:115-122 | an archive whose first corrupt entry is entry `k` ticks `k + 1` times; one with none ticks once per entry |
| GenProperties.RunTicksAllEntries | src/legal_vec/gen.py:111-123 | with no failing archive and no corrupt entry, the counter ends at the number of case records |
| Download.JurisdictionIds | src/legal_vec/data/download.py:16 | the set holds exactly the ids of the jurisdiction files |
| Download.Yields | src/legal_vec/data/download.py:18-23 | the copies one volume contributes are all that volume, and there are some only when one of its jurisdiction entries is selected |
| Download.Volumes | src/legal_vec/data/download.py:18-23 | every streamed volume comes from the volume file and has a selected jurisdiction entry |
| Download.OutputPathShape | src/legal_vec/data/download.py:27 | the output path is the reporter slug, `/`, the volume and `.zip` |
| Download.PartialPath | src/legal_vec/data/download.py:28 | the partial path is the output path followed by `.dl` |
| Download.Url | src/legal_vec/data/download.py:37 | the URL is `/` followed by the output path |
| Download.PartialNeverOutput | src/legal_vec/data/download.py:27-28 | no volume's partial path is any volume's output path |
| Download.NatString | src/legal_vec/data/download.py:36 | the decimal rendering is non-empty and all digits |
| Download.RangeHeader | src/legal_vec/data/download.py:36 | the header reads `bytes=`, then the offset, then `-` |
| Download.ResumeOffsetAsWritten | src/legal_vec/data/download.py:33 | as written, the offset is the corrected one (the partial file's size, 0 with none) less one whenever a partial file exists |
| Download.FileSystem.Exists | src/legal_vec/data/download.py:30 | true exactly when the path holds a file |
| Download.FileSystem.OpenAppend | src/legal_vec/data/download.py:43 | opening for append creates an empty file when there is none and changes nothing else |
| Download.FileSystem.Append | src/legal_vec/data/download.py:45 | writing adds the data to the end of that one file |
| Download.FileSystem.Rename | src/legal_vec/data/download.py:50 | the target takes the source's contents and the source is gone |
| Download.WriteChunks | src/legal_vec/data/download.py:43-45 | appending every chunk leaves the file holding its old contents followed by all chunks in order, and no other file changes |
| Download.DownloadVolume | src/legal_vec/data/download.py:26-51 | the outcome and the new files are those of `VolumeStep`: an existing archive is left alone; otherwise the request asks for the rest of the volume; a request that fails before the partial file is opened (the connection, or a missing `Content-Length`) changes no file; a completed transfer leaves held bytes plus all chunks under the output path with no partial file; a transfer that fails after the partial file is opened leaves them in the partial file |
| Download.OutputNoPartial | src/legal_vec/data/download.py:27-28 | no output path is the partial path of any listed volume |
| Download.StepEffect | src/legal_vec/data/download.py:26-51 | one call keeps every file but the volume's partial file; unless the transfer fails the volume's archive exists afterwards; an archive exists afterwards exactly when it existed before or the call wrote it; a request that fails before the partial file is opened leaves every file as it was |
| Download.Run | src/legal_vec/data/download.py:64-66 | the run ticks at most once per volume |
| Download.RunKeepsFiles | src/legal_vec/data/download.py:64-66 | a run keeps, unchanged, every file that is no volume's partial file |
| Download.RunTickCount | src/legal_vec/data/download.py:64-66 | the run is aborted exactly when it ticks fewer times than there are volumes |
| Download.CompleteServerNeverFails | src/legal_vec/data/download.py:64-66 | when every transfer reaches the partial file and completes, the run is not aborted |
| Download.RunSkippedExactly | src/legal_vec/data/download.py:30-66 | a tick is "skipped" exactly when the archive existed before the run or an earlier volume of the run has the same archive |
| Download.RunOutputsExist | src/legal_vec/data/download.py:64-66 | every ticked volume's archive exists when the run ends |
| Download.DownloadAll | src/legal_vec/data/download.py:64-66 | the files, ticks and abort flag after the loop are those of the specification function `Run` |
| Download.RunDownloads | src/legal_vec/data/download.py:54-66 | the volumes are the selected stream; files, ticks and abort flag are those of `Run`; one tick per volume until a transfer fails, and the run aborts exactly then; a server whose transfers all complete never aborts it; a tick is "skipped" exactly when the archive existed before the run or an earlier volume wrote it; every ticked volume's archive exists afterwards; every file that is no volume's partial file keeps its contents |
| DownloadProperties.YieldsConcat | src/legal_vec/data/download.py:18-23 | copies over a split jurisdiction list are the copies over each part, in order |
| DownloadProperties.YieldsSnoc | src/legal_vec/data/download.py:18-23 | one more jurisdiction entry adds one copy when selected and none otherwise |
| DownloadProperties.MatchSetSnoc | src/legal_vec/data/download.py:21-22 | one more jurisdiction entry adds one selected position when selected and none otherwise |
| DownloadProperties.YieldsAreCopies | src/legal_vec/data/download.py:18-23 | a volume is yielded once per selected entry of its jurisdiction list |
| DownloadProperties.VolumesConcat | src/legal_vec/data/download.py:18-23 | the stream keeps the order of the volume file |
| DownloadProperties.VolumesOfOne | src/legal_vec/data/download.py:18-23 | a volume appears as many times as it has selected jurisdiction entries: zero, once, or more than once |
| DownloadProperties.NatStringRoundTrip | src/legal_vec/data/download.py:36 | parsing the decimal rendering of a natural number gives it back |
| DownloadProperties.IntStringRoundTrip | src/legal_vec/data/download.py:36 | the same for any integer, sign included |
| DownloadProperties.RangeHeaderRoundTrip | src/legal_vec/data/download.py:36 | a server reads back from the `Range` header exactly the offset written into it |
| DownloadProperties.RequestAsWritten | src/legal_vec/data/download.py:33-37 | the request as written goes to the volume's URL and asks for the as-written offset, so an empty partial file asks for `bytes=-1-` |
| DownloadProperties.AsWrittenResumeDuplicatesByte | src/legal_vec/data/download.py:33-45 | as written, resuming from a partial file of `n >= 1` bytes appends byte `n - 1` twice, so the archive is one byte too long |
| DownloadProperties.ResumeCompletesResource | src/legal_vec/data/download.py:33-50 | with the corrected offset, resuming from any proper prefix of the archive ends with exactly the archive |
| DownloadProperties.ResumeStoresArchive | src/legal_vec/data/download.py:26-51 | with a server that honours the range, a missing archive with a proper prefix in its partial file is completed: the archive is stored exactly and the partial file is gone |

## Left out

- Download.DownloadVolume: resumes at `ResumeOffset`, the partial file's size, not at download.py:33's size − 1. See Findings.
- The sentence-embedding model is the parameter `embed`. Its vectors are never inspected.
- The Qdrant client is reduced to a map of points. Its on-disk format is not modelled: what earlier runs stored is the `initial` map given to the `Store` constructor. `wait=True` and the collection creation (gen.py:97-106) are not modelled.
- The interactive query after ingestion (gen.py:125-130) reads the console and prints; it is not modelled.
- Zip and JSON decoding are left out. An archive is given as its list of `json/` entries, each a parsed case record or an entry whose reading raises `BadZipFile`.
- A record missing a field raises `KeyError` in the source. Records here always have every field.
- Exceptions other than `BadZipFile` inside the entry loop and the failed transfer are left out.
- The open archive handle is never closed (gen.py:113). Leaked handles are not modelled.
- The HTTP client is the parameter `server`. A response says whether the request reached the partial file (`streamed`) and whether the stream then completed. Either failure is an error that ends `main`.
- The `Content-Length` header (download.py:39) is read and never used. Status codes are not modelled.
- With a partial file that already holds the whole archive, the corrected offset equals the archive size. A real server then answers 416, and the model leaves that response to `server`. `ResumeCompletesResource` requires a proper prefix for this reason.
- Directory creation (download.py:35) is left out. Paths are plain strings relative to the downloads directory.
- Progress-bar text, titles and the printed volume count (download.py:40, 58; gen.py:114) are left out. Ticks and their `skipped` flag are modelled.
- The `reporters` generator (download.py:14) is never used by the program. It is not modelled.
- Globbing the downloads directory (gen.py:94) and the jurisdiction files (download.py:9) is left out. Their results are the inputs `archives` and `jurisdictions`, in the order the glob yields them.

## Findings

| source | as written | input that shows it | evidently intended | confidence | as-written member | corrected member |
|---|---|---|---|---|---|---|
| src/legal_vec/data/download.py:33 | resumes at `st_size - 1` | a `.zip.dl` holding the first `n >= 1` bytes of the archive: the request asks for bytes from `n - 1`, and that byte is appended a second time; an empty `.zip.dl` asks for `bytes=-1-` | resume at `st_size`, the first byte not yet held | high (not executed) | DownloadProperties.AsWrittenResumeDuplicatesByte | DownloadProperties.ResumeCompletesResource |
