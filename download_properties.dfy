/**
 * Properties of the model of src/legal_vec/data/download.py: the volume
 * stream, the `Range` header, and resuming a partial download.
 */
module DownloadProperties {
  import opened Wrappers
  import opened Records
  import opened Download

  // ---------------------------------------------------------------------
  // The volume stream
  // ---------------------------------------------------------------------

  lemma {:induction false} YieldsConcat(v: ReporterVolume, a: seq<Jurisdiction>, b: seq<Jurisdiction>, ids: set<int>)
    ensures Yields(v, a + b, ids) == Yields(v, a, ids) + Yields(v, b, ids)
    decreases |a|
  {
    if a == [] {
      assert a + b == b;
    } else {
      assert (a + b)[1..] == a[1..] + b;
      YieldsConcat(v, a[1..], b, ids);
    }
  }

  /** Appending one entry to a jurisdiction list appends at most one copy of the volume. */
  lemma YieldsSnoc(v: ReporterVolume, jurs: seq<Jurisdiction>, ids: set<int>)
    requires jurs != []
    ensures var n := |jurs| - 1;
            Yields(v, jurs, ids) == Yields(v, jurs[..n], ids) + (if jurs[n].id in ids then [v] else [])
  {
    var n := |jurs| - 1;
    assert jurs == jurs[..n] + [jurs[n]];
    YieldsConcat(v, jurs[..n], [jurs[n]], ids);
    assert [jurs[n]][1..] == [];
  }

  /** Appending one entry adds its position to the selected positions when its id is selected. */
  lemma MatchSetSnoc(jurs: seq<Jurisdiction>, ids: set<int>)
    requires jurs != []
    ensures var n := |jurs| - 1;
            |MatchSet(jurs, ids)| == |MatchSet(jurs[..n], ids)| + (if jurs[n].id in ids then 1 else 0)
  {
    var n := |jurs| - 1;
    var last: set<nat> := if jurs[n].id in ids then {n} else {};
    assert MatchSet(jurs, ids) == MatchSet(jurs[..n], ids) + last;
    assert n !in MatchSet(jurs[..n], ids);
  }

  /** A volume is yielded once per selected entry of a jurisdiction list, and nothing else is. */
  lemma {:induction false} YieldsAreCopies(v: ReporterVolume, jurs: seq<Jurisdiction>, ids: set<int>)
    ensures Yields(v, jurs, ids) == seq(|MatchSet(jurs, ids)|, _ => v)
    decreases |jurs|
  {
    if jurs == [] {
      assert MatchSet(jurs, ids) == {};
    } else {
      var n := |jurs| - 1;
      YieldsSnoc(v, jurs, ids);
      MatchSetSnoc(jurs, ids);
      YieldsAreCopies(v, jurs[..n], ids);
      var c := |MatchSet(jurs[..n], ids)|;
      if jurs[n].id in ids {
        assert seq(c, _ => v) + [v] == seq(c + 1, _ => v);
      } else {
        assert seq(c, _ => v) + [] == seq(c, _ => v);
      }
    }
  }

  /** The stream over `a + b` is the stream over `a` followed by the stream over `b`: file order is kept. */
  lemma {:induction false} VolumesConcat(a: seq<ReporterVolume>, b: seq<ReporterVolume>, ids: set<int>)
    ensures Volumes(a + b, ids) == Volumes(a, ids) + Volumes(b, ids)
    decreases |a|
  {
    if a == [] {
      assert a + b == b;
    } else {
      assert (a + b)[1..] == a[1..] + b;
      VolumesConcat(a[1..], b, ids);
    }
  }

  /**
   * One volume contributes one copy of itself per selected jurisdiction
   * entry: none when no entry is selected, two when two are.
   */
  lemma VolumesOfOne(v: ReporterVolume, ids: set<int>)
    ensures Volumes([v], ids) == seq(MatchCount(v, ids), _ => v)
  {
    YieldsAreCopies(v, v.jurisdictions, ids);
    assert [v][1..] == [];
  }

  // ---------------------------------------------------------------------
  // The Range header
  // ---------------------------------------------------------------------

  lemma {:induction false} NatStringRoundTrip(n: nat)
    ensures ParseNat(NatString(n)) == n
  {
    var s := NatString(n);
    if n >= 10 {
      assert s[..|s| - 1] == NatString(n / 10);
      NatStringRoundTrip(n / 10);
    }
  }

  lemma IntStringRoundTrip(n: int)
    ensures ParseInt(IntString(n)) == Some(n)
  {
    var s := IntString(n);
    if n < 0 {
      NatStringRoundTrip(-n);
      assert s[1..] == NatString(-n);
    } else {
      NatStringRoundTrip(n);
      assert IsDigit(s[0]);
    }
  }

  /** The offset written into the `Range` header is the offset a server reads from it. */
  lemma RangeHeaderRoundTrip(offset: int)
    ensures ParseRange(RangeHeader(offset)) == Some(offset)
  {
    var h := RangeHeader(offset);
    assert h[..6] == "bytes=";
    assert h[6..|h| - 1] == IntString(offset);
    IntStringRoundTrip(offset);
  }

  // ---------------------------------------------------------------------
  // Resuming a partial download
  // ---------------------------------------------------------------------

  /**
   * A server holding `resource` that honours `Range: bytes=<k>-` for `k`
   * inside the resource and otherwise sends the whole resource, in one
   * chunk, to completion.
   */
  function ServeRange(resource: seq<byte>, req: Request): Transfer
  {
    match ParseRange(req.range)
    case Some(k) => if 0 <= k < |resource| then Transfer(true, [resource[k..]], true) else Transfer(true, [resource], true)
    case None => Transfer(true, [resource], true)
  }

  /**
   * The request download.py:33-37 sends: the offset it asks for is
   * `ResumeOffsetAsWritten`, so an empty partial file asks for `bytes=-1-`.
   */
  function RequestAsWritten(files: map<Path, seq<byte>>, slug: string, vol: string): (r: Request)
    ensures r.url == Url(slug, vol)
    ensures ParseRange(r.range) == Some(ResumeOffsetAsWritten(files, PartialPath(slug, vol)))
    ensures PartialPath(slug, vol) in files && files[PartialPath(slug, vol)] == [] ==> r.range == "bytes=-1-"
  {
    var offset := ResumeOffsetAsWritten(files, PartialPath(slug, vol));
    RangeHeaderRoundTrip(offset);
    assert offset == -1 ==> IntString(offset) == "-1";
    Request(Url(slug, vol), RangeHeader(offset))
  }

  /**
   * As written, resuming from a partial file that holds the first `n >= 1`
   * bytes of the resource appends byte `n - 1` a second time: the finished
   * archive is one byte longer than the resource.
   */
  lemma AsWrittenResumeDuplicatesByte(resource: seq<byte>, n: nat, files: map<Path, seq<byte>>, slug: string, vol: string)
    requires 1 <= n <= |resource|
    requires PartialPath(slug, vol) in files && files[PartialPath(slug, vol)] == resource[..n]
    ensures var response := ServeRange(resource, RequestAsWritten(files, slug, vol));
            var finished := Held(files, PartialPath(slug, vol)) + Concat(response.chunks);
            finished == resource[..n] + resource[n - 1..] && |finished| == |resource| + 1 && finished != resource
  {
    var req := RequestAsWritten(files, slug, vol);
    RangeHeaderRoundTrip(n - 1);
    assert ServeRange(resource, req).chunks == [resource[n - 1..]];
    assert Concat([resource[n - 1..]]) == resource[n - 1..] by {
      assert [resource[n - 1..]][..0] == [];
    }
  }

  /**
   * With the corrected offset, resuming from a partial file that holds any
   * proper prefix of the resource (none at all included) finishes with
   * exactly the resource: the contents `DownloadVolume` renames into place.
   */
  lemma ResumeCompletesResource(resource: seq<byte>, n: nat, files: map<Path, seq<byte>>, slug: string, vol: string)
    requires n < |resource|
    requires if n == 0 then PartialPath(slug, vol) !in files || files[PartialPath(slug, vol)] == []
             else PartialPath(slug, vol) in files && files[PartialPath(slug, vol)] == resource[..n]
    ensures var response := ServeRange(resource, RequestFor(files, slug, vol));
            Succeeds(response) && Held(files, PartialPath(slug, vol)) + Concat(response.chunks) == resource
  {
    var dl, req := PartialPath(slug, vol), RequestFor(files, slug, vol);
    var held := Held(files, dl);
    assert held == resource[..n] by {
      if n == 0 {
        assert resource[..n] == [];
      }
    }
    assert req.range == RangeHeader(n);
    ServeFrom(resource, req, n);
    assert held + resource[n..] == resource;
  }

  /** A request whose header reads back as offset `k` inside the resource gets the rest from `k`, in one chunk. */
  lemma ServeFrom(resource: seq<byte>, req: Request, k: nat)
    requires k < |resource|
    requires req.range == RangeHeader(k)
    ensures var response := ServeRange(resource, req);
            Succeeds(response) && Concat(response.chunks) == resource[k..]
  {
    RangeHeaderRoundTrip(k);
    assert ServeRange(resource, req).chunks == [resource[k..]];
    assert [resource[k..]][..0] == [];
  }

  /**
   * With a server that honours the range, `download_volume` on a volume
   * whose archive is missing and whose partial file holds a proper prefix
   * of the archive completes, stores exactly the archive, and leaves no
   * partial file.
   */
  lemma ResumeStoresArchive(resource: seq<byte>, n: nat, files: map<Path, seq<byte>>, slug: string, vol: string)
    requires n < |resource|
    requires OutputPath(slug, vol) !in files
    requires if n == 0 then PartialPath(slug, vol) !in files || files[PartialPath(slug, vol)] == []
             else PartialPath(slug, vol) in files && files[PartialPath(slug, vol)] == resource[..n]
    ensures var step := VolumeStep(files, slug, vol, req => ServeRange(resource, req));
            step.outcome == Completed(RequestFor(files, slug, vol))
            && step.files == (files - {PartialPath(slug, vol)})[OutputPath(slug, vol) := resource]
  {
    ResumeCompletesResource(resource, n, files, slug, vol);
  }
}
