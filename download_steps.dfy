/** The chunk download-and-verify logic of download/download.go, as state
    transitions. The local state is a `Disk`: the files of the working
    directory and the number of requests made to content URLs so far. The
    rest of the world is a `World` that no step changes: what the checksum
    and content URLs answer, which paths cannot be opened, created or
    removed, the MD5 hasher and the zip reader.

    The `Host` class in module `Download` performs the same steps on its
    fields; each of its methods is proved to agree with the function here of
    the same name, and the properties of the pipeline are lemmas about these
    functions. */
module DownloadSteps {
  import opened Wrappers
  import opened GoLib
  import VmList
  import VirtualBox

  /** A 16-byte MD5 sum (RFC 1321). */
  type Md5Sum = s: seq<byte> | |s| == 16 witness [0, 0, 0, 0, 0, 0, 0, 0, 0, 0, 0, 0, 0, 0, 0, 0]

  /** What an HTTP GET of a reachable URL gives: its whole body, or the part
      read before the transfer broke. A URL missing from a server table is
      one that `http.Get` fails on. */
  datatype Response<T> = Complete(body: T) | Broken(partial: T)

  /** The data of one archive entry: readable in full, impossible to open,
      or breaking off after `partial`. */
  datatype EntryBody = Readable(data: seq<byte>) | Unopenable | Truncated(partial: seq<byte>)

  datatype ZipEntry = ZipEntry(name: string, isDir: bool, body: EntryBody)

  /** The internal state of an MD5 hasher (RFC 1321): its chaining words and
      the bytes of the block not yet compressed. Its contents are left to the
      hasher's own functions. */
  type HashState = seq<int>

  datatype World = World(
    checksumServer: map<string, Response<string>>,
    contentServer: map<string, Response<seq<byte>>>,
    // existing files whose opening fails for a reason other than absence
    openFails: set<string>,
    createFails: set<string>,
    removeFails: set<string>,
    // md5.New(), one byte written to the hasher, and Sum(nil)
    md5Init: HashState,
    md5Write: (HashState, byte) -> HashState,
    md5Sum: HashState -> Md5Sum,
    // the entries of an archive, or None when the bytes are not a zip file
    zipReader: seq<byte> -> Option<seq<ZipEntry>>)

  datatype Disk = Disk(files: map<string, seq<byte>>, contentFetches: nat)

  /** The disk after a step and the error the step returned (`None` is nil). */
  datatype Step = Step(disk: Disk, err: Option<Error>)

  /** The disk after a download and the digest text or error it returned. */
  datatype Fetched = Fetched(disk: Disk, md5: Result<string, Error>)

  // ---------------------------------------------------------------------
  // digests

  /** The hasher's state after the bytes of `data` are written to it in order. */
  function Absorb(w: World, h: HashState, data: seq<byte>): HashState
  {
    if data == [] then h
    else w.md5Write(Absorb(w, h, data[..|data| - 1]), data[|data| - 1])
  }

  /** Writing `data` and then one more byte is writing `data + [b]`. */
  lemma AbsorbStep(w: World, h: HashState, data: seq<byte>, b: byte)
    ensures Absorb(w, h, data + [b]) == w.md5Write(Absorb(w, h, data), b)
  {
    assert (data + [b])[..|data|] == data;
  }

  /** Writing in two pieces is writing the whole. */
  lemma {:induction false} AbsorbConcat(w: World, h: HashState, a: seq<byte>, b: seq<byte>)
    ensures Absorb(w, Absorb(w, h, a), b) == Absorb(w, h, a + b)
    decreases |b|
  {
    if b != [] {
      var init := b[..|b| - 1];
      var last := b[|b| - 1];
      assert b == init + [last];
      assert a + b == (a + init) + [last];
      AbsorbConcat(w, h, a, init);
      AbsorbStep(w, Absorb(w, h, a), init, last);
      AbsorbStep(w, h, a + init, last);
    } else {
      assert a + b == a;
    }
  }

  /** The MD5 sum of `data`: a fresh hasher fed every byte, then summed. */
  function Md5(w: World, data: seq<byte>): Md5Sum
  {
    w.md5Sum(Absorb(w, w.md5Init, data))
  }

  /** `fmt.Sprintf("%x", h.Sum(nil))` for the MD5 of `data`. */
  function Md5Hex(w: World, data: seq<byte>): (t: string)
    ensures IsDigestText(t)
  {
    Hex(Md5(w, data))
  }

  /** The shape of every computed digest: 32 lowercase hexadecimal digits. */
  predicate IsDigestText(t: string)
  {
    |t| == 32 && forall i :: 0 <= i < |t| ==> IsLowerHexDigit(t[i])
  }

  /** Digest texts are faithful: equal texts mean equal MD5 sums. */
  lemma Md5HexInjective(w: World, a: seq<byte>, b: seq<byte>)
    requires Md5Hex(w, a) == Md5Hex(w, b)
    ensures Md5(w, a) == Md5(w, b)
  {
    HexInjective(Md5(w, a), Md5(w, b));
  }

  /** `after` is `before` with at most the file at `path` created or
      rewritten: no other file changes and none is removed. */
  predicate OnlyWrites(before: map<string, seq<byte>>, after: map<string, seq<byte>>, path: string)
  {
    after == before || (path in after && after == before[path := after[path]])
  }

  function Md5Unmatched(remote: string, local: string): Error
  {
    Errorf("Md5 unmatched. remote=" + remote + ", local=" + local)
  }

  // ---------------------------------------------------------------------
  // single steps

  /** `fetchMd5`: the whole body of the checksum URL, used as it is. */
  function FetchMd5(w: World, md5Url: string): (r: Result<string, Error>)
    ensures r.Success? <==> md5Url in w.checksumServer && w.checksumServer[md5Url].Complete?
    ensures r.Success? ==> r.value == w.checksumServer[md5Url].body
  {
    if md5Url !in w.checksumServer then Failure(NetError(md5Url))
    else match w.checksumServer[md5Url]
      case Complete(text) => Success(text)
      case Broken(_) => Failure(BodyReadError(md5Url))
  }

  /** `fileExists`: absence is `false` with no error, any other open failure
      is an error. */
  function FileExists(w: World, files: map<string, seq<byte>>, path: string): (r: Result<bool, Error>)
    ensures r == Success(true) <==> path in files && path !in w.openFails
    ensures r == Success(false) <==> path !in files
    ensures r.Failure? ==> r.error == PathError("open", path)
  {
    if path !in files then Success(false)
    else if path in w.openFails then Failure(PathError("open", path))
    else Success(true)
  }

  /** `calcMd5OfFile`: the digest text of the file at `path`; "" when there
      is no such file. */
  function CalcMd5OfFile(w: World, files: map<string, seq<byte>>, path: string): (r: Result<string, Error>)
    ensures r == Success("") <==> path !in files
    ensures r.Failure? <==> path in files && path in w.openFails
    ensures r.Failure? ==> r.error == PathError("open", path)
    ensures r.Success? && path in files ==> r.value == Md5Hex(w, files[path])
  {
    if path !in files then Success("")
    else if path in w.openFails then Failure(PathError("open", path))
    else Success(Md5Hex(w, files[path]))
  }

  /** `fileExists` and `calcMd5OfFile` split the cases the same way. */
  lemma FileExistsAgreesWithCalcMd5(w: World, files: map<string, seq<byte>>, path: string)
    ensures FileExists(w, files, path) == Success(false) <==> CalcMd5OfFile(w, files, path) == Success("")
    ensures FileExists(w, files, path).Failure? <==> CalcMd5OfFile(w, files, path).Failure?
    ensures FileExists(w, files, path) == Success(true) <==>
              CalcMd5OfFile(w, files, path).Success? && IsDigestText(CalcMd5OfFile(w, files, path).value)
  {
  }

  /** `downloadFileAndCalcMd5`: one request to `url`; the body is written into
      a file created (or truncated) at `path` and hashed on the way. */
  function DownloadFileAndCalcMd5(w: World, d: Disk, url: string, path: string): (r: Fetched)
    ensures r.disk.contentFetches == d.contentFetches + 1
    ensures r.md5.Success? <==>
              url in w.contentServer && w.contentServer[url].Complete? && path !in w.createFails
    ensures r.md5.Success? ==>
              r.disk.files == d.files[path := w.contentServer[url].body] &&
              r.md5.value == Md5Hex(w, w.contentServer[url].body)
    ensures url !in w.contentServer || path in w.createFails ==> r.disk.files == d.files
    ensures OnlyWrites(d.files, r.disk.files, path)
  {
    var d1 := d.(contentFetches := d.contentFetches + 1);
    if url !in w.contentServer then Fetched(d1, Failure(NetError(url)))
    else if path in w.createFails then Fetched(d1, Failure(PathError("open", path)))
    else match w.contentServer[url]
      case Complete(body) => Fetched(d1.(files := d.files[path := body]), Success(Md5Hex(w, body)))
      case Broken(partial) => Fetched(d1.(files := d.files[path := partial]), Failure(BodyReadError(url)))
  }

  /** `downloadFileIfMd5NotMatch`. */
  function DownloadFileIfMd5NotMatch(w: World, d: Disk, md5: string, url: string, path: string): (r: Step)
    ensures d.contentFetches <= r.disk.contentFetches <= d.contentFetches + 1
    ensures OnlyWrites(d.files, r.disk.files, path)
    ensures r.disk.contentFetches == d.contentFetches ==> r.disk == d
  {
    match CalcMd5OfFile(w, d.files, path)
    case Failure(e) => Step(d, Some(e))
    case Success(localMd5) =>
      if localMd5 == md5 then Step(d, None)
      else
        var fetched := DownloadFileAndCalcMd5(w, d, url, path);
        match fetched.md5
        case Failure(e) => Step(fetched.disk, Some(e))
        case Success(got) =>
          if got != md5 then Step(fetched.disk, Some(Md5Unmatched(md5, got)))
          else Step(fetched.disk, None)
  }

  /** `downloadMd5AndFileIfMd5NotMatch`. */
  function DownloadMd5AndFileIfMd5NotMatch(w: World, d: Disk, md5Url: string, url: string, path: string): (r: Step)
    ensures d.contentFetches <= r.disk.contentFetches <= d.contentFetches + 1
    ensures OnlyWrites(d.files, r.disk.files, path)
    ensures FetchMd5(w, md5Url).Failure? ==> r.disk == d && r.err.Some?
  {
    match FetchMd5(w, md5Url)
    case Failure(e) => Step(d, Some(e))
    case Success(md5) => DownloadFileIfMd5NotMatch(w, d, md5, url, path)
  }

  /** `downloadFileIfNeeded`: the chunk is stored under its local file name. */
  function DownloadFileIfNeeded(w: World, d: Disk, f: VmList.ChunkFile): (r: Step)
    ensures d.contentFetches <= r.disk.contentFetches <= d.contentFetches + 1
    ensures OnlyWrites(d.files, r.disk.files, VmList.GetLocalFileName(f))
  {
    DownloadMd5AndFileIfMd5NotMatch(w, d, f.md5Url, f.url, VmList.GetLocalFileName(f))
  }

  // ---------------------------------------------------------------------
  // properties of the download decision

  /** A local digest equal to the checksum text means success with nothing
      fetched and nothing changed; a different one means exactly one
      content request. */
  lemma FetchOnlyWhenDigestDiffers(w: World, d: Disk, md5: string, url: string, path: string)
    ensures CalcMd5OfFile(w, d.files, path) == Success(md5) ==>
              DownloadFileIfMd5NotMatch(w, d, md5, url, path) == Step(d, None)
    ensures DownloadFileIfMd5NotMatch(w, d, md5, url, path).disk.contentFetches ==
              d.contentFetches +
                (if CalcMd5OfFile(w, d.files, path).Success? && CalcMd5OfFile(w, d.files, path).value != md5 then 1 else 0)
  {
  }

  /** An open failure other than absence is returned before anything is
      fetched or written. */
  lemma OpenFailureStopsEarly(w: World, d: Disk, md5: string, url: string, path: string)
    requires path in d.files && path in w.openFails
    ensures DownloadFileIfMd5NotMatch(w, d, md5, url, path) == Step(d, Some(PathError("open", path)))
  {
  }

  /** Equality with the raw checksum text is the only test: an absent file
      counts as up to date when that text is "", and is fetched otherwise. */
  lemma AbsentFileAgainstChecksum(w: World, d: Disk, md5: string, url: string, path: string)
    requires path !in d.files
    ensures md5 == "" ==> DownloadFileIfMd5NotMatch(w, d, md5, url, path) == Step(d, None)
    ensures md5 != "" ==> DownloadFileIfMd5NotMatch(w, d, md5, url, path).disk.contentFetches == d.contentFetches + 1
  {
  }

  /** A checksum text that is not the bare 32 lowercase hex digits (one with
      a trailing newline, say) never verifies: every call returns an error. */
  lemma MalformedChecksumNeverAccepted(w: World, d: Disk, md5: string, url: string, path: string)
    requires md5 != "" && !IsDigestText(md5)
    ensures DownloadFileIfMd5NotMatch(w, d, md5, url, path).err.Some?
  {
    var local := CalcMd5OfFile(w, d.files, path);
    if local.Success? && local.value != "" {
      assert path in d.files;
      assert IsDigestText(local.value);
    }
  }

  /** In particular a digest followed by whitespace never matches. */
  lemma TrailingWhitespaceNeverAccepted(w: World, d: Disk, digest: string, space: char, url: string, path: string)
    requires space in {' ', '\n', '\r', '\t'}
    ensures DownloadFileIfMd5NotMatch(w, d, digest + [space], url, path).err.Some?
  {
    var t := digest + [space];
    assert !IsLowerHexDigit(t[|t| - 1]);
    MalformedChecksumNeverAccepted(w, d, t, url, path);
  }

  /** After a content download the file holds exactly the body, and the
      outcome is decided by comparing its digest text with the checksum text;
      a mismatch is reported with both values and the file is left in place. */
  lemma DownloadedBodyDecides(w: World, d: Disk, md5: string, url: string, path: string)
    requires CalcMd5OfFile(w, d.files, path).Success? && CalcMd5OfFile(w, d.files, path).value != md5
    requires url in w.contentServer && w.contentServer[url].Complete? && path !in w.createFails
    ensures var body := w.contentServer[url].body;
            var r := DownloadFileIfMd5NotMatch(w, d, md5, url, path);
            && r.disk == Disk(d.files[path := body], d.contentFetches + 1)
            && r.err == (if Md5Hex(w, body) == md5 then None else Some(Md5Unmatched(md5, Md5Hex(w, body))))
  {
  }

  /** After success the chunk file's digest equals the checksum text (an
      absent file stands for the text ""), unless the file cannot be opened. */
  lemma VerifiedAfterSuccess(w: World, d: Disk, md5: string, url: string, path: string)
    requires DownloadFileIfMd5NotMatch(w, d, md5, url, path).err.None?
    requires path !in w.openFails
    ensures CalcMd5OfFile(w, DownloadFileIfMd5NotMatch(w, d, md5, url, path).disk.files, path) == Success(md5)
  {
  }

  /** A failure to fetch the checksum is returned before the local file is
      read or written. */
  lemma ChecksumFailureTouchesNothing(w: World, d: Disk, md5Url: string, url: string, path: string)
    requires FetchMd5(w, md5Url).Failure?
    ensures DownloadMd5AndFileIfMd5NotMatch(w, d, md5Url, url, path) == Step(d, Some(FetchMd5(w, md5Url).error))
  {
  }

  /** Running the decision a second time after a success, with the same
      remote answers, fetches nothing and changes nothing; it succeeds again
      unless the file cannot be opened. */
  lemma SecondRunFetchesNothing(w: World, d: Disk, md5Url: string, url: string, path: string)
    requires DownloadMd5AndFileIfMd5NotMatch(w, d, md5Url, url, path).err.None?
    ensures var d1 := DownloadMd5AndFileIfMd5NotMatch(w, d, md5Url, url, path).disk;
            var r2 := DownloadMd5AndFileIfMd5NotMatch(w, d1, md5Url, url, path);
            && r2.disk == d1
            && (r2.err.None? || path in w.openFails)
  {
    var md5 := FetchMd5(w, md5Url).value;
    var d1 := DownloadFileIfMd5NotMatch(w, d, md5, url, path).disk;
    if path !in w.openFails {
      VerifiedAfterSuccess(w, d, md5, url, path);
      FetchOnlyWhenDigestDiffers(w, d1, md5, url, path);
    }
  }

  // ---------------------------------------------------------------------
  // unzipFile

  /** The files after extraction and the error returned. */
  datatype Extraction = Extraction(files: map<string, seq<byte>>, err: Option<Error>)

  /** The loop of `unzipFile` over the entries in archive order: directories
      are skipped, an entry that cannot be opened is an error, a file that
      cannot be created stops the loop with no error, and every other entry
      is written to the base name of its path. */
  function Extract(createFails: set<string>, files: map<string, seq<byte>>, entries: seq<ZipEntry>): (r: Extraction)
    ensures forall p :: p in files ==> p in r.files
    ensures forall p :: p in createFails && p in r.files ==> p in files && r.files[p] == files[p]
    decreases |entries|
  {
    if entries == [] then Extraction(files, None)
    else
      var f := entries[0];
      if f.isDir then Extract(createFails, files, entries[1..])
      else if f.body.Unopenable? then Extraction(files, Some(ZipEntryError(f.name)))
      else
        var out := Base(f.name);
        if out in createFails then Extraction(files, None)
        else match f.body
          case Readable(data) => Extract(createFails, files[out := data], entries[1..])
          case Truncated(partial) => Extraction(files[out := partial], Some(ZipEntryError(f.name)))
  }

  /** Every file extraction adds is named after the base name of a file
      entry of the archive. */
  lemma {:induction false} ExtractWritesEntryNames(createFails: set<string>, files: map<string, seq<byte>>,
                                                   entries: seq<ZipEntry>, p: string) returns (i: int)
    requires p in Extract(createFails, files, entries).files && p !in files
    ensures 0 <= i < |entries| && !entries[i].isDir && Base(entries[i].name) == p && p !in createFails
    decreases |entries|
  {
    var f := entries[0];
    if f.isDir {
      assert Extract(createFails, files, entries) == Extract(createFails, files, entries[1..]);
      var j := ExtractWritesEntryNames(createFails, files, entries[1..], p);
      i := j + 1;
      assert entries[i] == entries[1..][j];
    } else if Base(f.name) == p {
      i := 0;
    } else {
      var next := files[Base(f.name) := f.body.data];
      assert Extract(createFails, files, entries) == Extract(createFails, next, entries[1..]);
      var j := ExtractWritesEntryNames(createFails, next, entries[1..], p);
      i := j + 1;
      assert entries[i] == entries[1..][j];
    }
  }

  function NonDirectories(entries: seq<ZipEntry>): (r: seq<ZipEntry>)
    ensures forall e :: e in r ==> e in entries && !e.isDir
    ensures forall e :: e in entries && !e.isDir ==> e in r
  {
    if entries == [] then []
    else (if entries[0].isDir then [] else [entries[0]]) + NonDirectories(entries[1..])
  }

  /** Directory entries play no part in extraction. */
  lemma {:induction false} ExtractIgnoresDirectories(createFails: set<string>, files: map<string, seq<byte>>, entries: seq<ZipEntry>)
    ensures Extract(createFails, files, entries) == Extract(createFails, files, NonDirectories(entries))
    decreases |entries|
  {
    if entries != [] {
      var f := entries[0];
      var rest := NonDirectories(entries[1..]);
      if f.isDir {
        assert NonDirectories(entries) == [] + rest;
        assert [] + rest == rest;
        ExtractIgnoresDirectories(createFails, files, entries[1..]);
      } else {
        assert NonDirectories(entries) == [f] + rest;
        assert ([f] + rest)[1..] == rest;
        if f.body.Readable? && Base(f.name) !in createFails {
          ExtractIgnoresDirectories(createFails, files[Base(f.name) := f.body.data], entries[1..]);
        }
      }
    }
  }

  /** The data the last file entry whose base name is `p` carries. */
  function LastWriteTo(entries: seq<ZipEntry>, p: string): Option<seq<byte>>
    requires forall i :: 0 <= i < |entries| && !entries[i].isDir ==> entries[i].body.Readable?
  {
    if entries == [] then None
    else
      var f := entries[|entries| - 1];
      if !f.isDir && Base(f.name) == p then Some(f.body.data)
      else LastWriteTo(entries[..|entries| - 1], p)
  }

  /** Every entry can be read and every output file created. */
  predicate ExtractsCleanly(createFails: set<string>, entries: seq<ZipEntry>)
  {
    forall i :: 0 <= i < |entries| && !entries[i].isDir ==>
      entries[i].body.Readable? && Base(entries[i].name) !in createFails
  }

  /** When every entry can be read and written, extraction succeeds, and
      each output file holds the data of the LAST entry with that base name:
      later entries overwrite earlier ones. Other files are untouched. */
  lemma {:induction false} ExtractLastEntryWins(createFails: set<string>, files: map<string, seq<byte>>, entries: seq<ZipEntry>)
    requires ExtractsCleanly(createFails, entries)
    ensures Extract(createFails, files, entries).err.None?
    ensures forall p :: LastWriteTo(entries, p).Some? ==>
              p in Extract(createFails, files, entries).files &&
              Extract(createFails, files, entries).files[p] == LastWriteTo(entries, p).value
    ensures forall p :: LastWriteTo(entries, p).None? ==>
              (p in Extract(createFails, files, entries).files <==> p in files) &&
              (p in files ==> Extract(createFails, files, entries).files[p] == files[p])
    decreases |entries|
  {
    if entries != [] {
      var f := entries[0];
      var rest := entries[1..];
      var next := if f.isDir then files else files[Base(f.name) := f.body.data];
      assert ExtractsCleanly(createFails, rest) by {
        forall i | 0 <= i < |rest| && !rest[i].isDir
          ensures rest[i].body.Readable? && Base(rest[i].name) !in createFails
        {
          assert rest[i] == entries[i + 1];
        }
      }
      ExtractLastEntryWins(createFails, next, rest);
      forall p ensures LastWriteTo(entries, p) == (if LastWriteTo(rest, p).Some? then LastWriteTo(rest, p)
                                                  else if !f.isDir && Base(f.name) == p then Some(f.body.data)
                                                  else None) {
        LastWriteSplit(entries, p);
      }
    }
  }

  /** `LastWriteTo` looked at from the front: the first entry counts only if
      no later one writes the same name. */
  lemma {:induction false} LastWriteSplit(entries: seq<ZipEntry>, p: string)
    requires entries != []
    requires forall i :: 0 <= i < |entries| && !entries[i].isDir ==> entries[i].body.Readable?
    ensures var f := entries[0];
            LastWriteTo(entries, p) == (if LastWriteTo(entries[1..], p).Some? then LastWriteTo(entries[1..], p)
                                        else if !f.isDir && Base(f.name) == p then Some(f.body.data)
                                        else None)
    decreases |entries|
  {
    if |entries| > 1 {
      var init := entries[..|entries| - 1];
      assert init[1..] == entries[1..][..|entries[1..]| - 1];
      assert init[0] == entries[0];
      LastWriteSplit(init, p);
    }
  }

  /** A failure to create an output file ends the extraction: the entries
      after it are never consulted. */
  lemma {:induction false} ExtractStopsAtCreateFailure(createFails: set<string>, files: map<string, seq<byte>>,
                                                       entries: seq<ZipEntry>, k: int)
    requires 0 <= k < |entries| && !entries[k].isDir && !entries[k].body.Unopenable?
    requires Base(entries[k].name) in createFails
    ensures Extract(createFails, files, entries) == Extract(createFails, files, entries[..k + 1])
    decreases k
  {
    var f := entries[0];
    var prefix := entries[..k + 1];
    assert prefix[0] == f;
    if f.isDir || (f.body.Readable? && Base(f.name) !in createFails) {
      assert k > 0 && entries[1..][k - 1] == entries[k];
      var next := if f.isDir then files else files[Base(f.name) := f.body.data];
      assert prefix[1..] == entries[1..][..k];
      calc {
        Extract(createFails, files, entries);
        { ExtractPassesHead(createFails, files, entries); }
        Extract(createFails, next, entries[1..]);
        { ExtractStopsAtCreateFailure(createFails, next, entries[1..], k - 1); }
        Extract(createFails, next, prefix[1..]);
        { ExtractPassesHead(createFails, files, prefix); }
        Extract(createFails, files, prefix);
      }
    } else {
      ExtractStopsAtHead(createFails, files, entries);
      ExtractStopsAtHead(createFails, files, prefix);
      assert prefix[..1] == entries[..1];
    }
  }

  /** `Extract` looks no further than a first entry that is neither skipped
      nor written. */
  lemma ExtractStopsAtHead(createFails: set<string>, files: map<string, seq<byte>>, entries: seq<ZipEntry>)
    requires entries != [] && !entries[0].isDir
    requires !(entries[0].body.Readable? && Base(entries[0].name) !in createFails)
    ensures Extract(createFails, files, entries) == Extract(createFails, files, entries[..1])
  {
    assert entries[..1][0] == entries[0];
  }

  /** One step of `Extract` over a first entry that is skipped or written. */
  lemma ExtractPassesHead(createFails: set<string>, files: map<string, seq<byte>>, entries: seq<ZipEntry>)
    requires entries != []
    requires entries[0].isDir || (entries[0].body.Readable? && Base(entries[0].name) !in createFails)
    ensures Extract(createFails, files, entries) ==
            Extract(createFails, if entries[0].isDir then files else files[Base(entries[0].name) := entries[0].body.data],
                    entries[1..])
  {
  }

  /** ... and with success, when the entries before it were all extracted. */
  lemma {:induction false} CreateFailureAfterCleanPrefix(createFails: set<string>, files: map<string, seq<byte>>,
                                                         entries: seq<ZipEntry>, k: int)
    requires 0 <= k < |entries| && !entries[k].isDir && !entries[k].body.Unopenable?
    requires Base(entries[k].name) in createFails
    requires ExtractsCleanly(createFails, entries[..k])
    ensures Extract(createFails, files, entries).err.None?
    decreases k
  {
    var f := entries[0];
    if k == 0 {
      assert Extract(createFails, files, entries) == Extraction(files, None);
    } else {
      assert entries[..k][0] == f;
      assert !f.isDir ==> f.body.Readable? && Base(f.name) !in createFails;
      var next := if f.isDir then files else files[Base(f.name) := f.body.data];
      assert Extract(createFails, files, entries) == Extract(createFails, next, entries[1..]);
      var between := entries[1..][..k - 1];
      assert ExtractsCleanly(createFails, between) by {
        forall i | 0 <= i < k - 1 && !between[i].isDir
          ensures between[i].body.Readable? && Base(between[i].name) !in createFails
        {
          assert between[i] == entries[..k][i + 1];
        }
      }
      CreateFailureAfterCleanPrefix(createFails, next, entries[1..], k - 1);
    }
  }

  /** A failed create is never an error: an error comes from an entry that
      could not be opened or read in full. */
  lemma {:induction false} ExtractErrorFromEntry(createFails: set<string>, files: map<string, seq<byte>>,
                                                 entries: seq<ZipEntry>) returns (i: int)
    requires Extract(createFails, files, entries).err.Some?
    ensures 0 <= i < |entries| && !entries[i].isDir && !entries[i].body.Readable?
    ensures Extract(createFails, files, entries).err == Some(ZipEntryError(entries[i].name))
    decreases |entries|
  {
    var f := entries[0];
    if f.isDir {
      assert Extract(createFails, files, entries) == Extract(createFails, files, entries[1..]);
      var j := ExtractErrorFromEntry(createFails, files, entries[1..]);
      i := j + 1;
      assert entries[i] == entries[1..][j];
    } else if !f.body.Readable? {
      i := 0;
    } else {
      var out := Base(f.name);
      if out in createFails {
        assert false;
      }
      var next := files[out := f.body.data];
      assert Extract(createFails, files, entries) == Extract(createFails, next, entries[1..]);
      var j := ExtractErrorFromEntry(createFails, next, entries[1..]);
      i := j + 1;
      assert entries[i] == entries[1..][j];
    }
  }

  /** `unzipFile`: open the chunk file as a zip archive and extract it. */
  function UnzipFile(w: World, d: Disk, filename: string): (r: Step)
    ensures r.disk.contentFetches == d.contentFetches
    ensures filename !in d.files || filename in w.openFails || w.zipReader(d.files[filename]).None? ==>
              r.disk == d && r.err.Some?
  {
    if filename !in d.files || filename in w.openFails then Step(d, Some(PathError("open", filename)))
    else match w.zipReader(d.files[filename])
      case None => Step(d, Some(ZipFormatError(filename)))
      case Some(entries) =>
        var x := Extract(w.createFails, d.files, entries);
        Step(d.(files := x.files), x.err)
  }

  /** `os.Remove`. */
  function RemoveFile(w: World, d: Disk, path: string): (r: Step)
    ensures r.err.None? <==> path in d.files && path !in w.removeFails
    ensures r.err.None? ==> r.disk == d.(files := d.files - {path})
    ensures r.err.Some? ==> r.disk == d
  {
    if path !in d.files || path in w.removeFails then Step(d, Some(PathError("remove", path)))
    else Step(d.(files := d.files - {path}), None)
  }

  /** `DownloadAndBuildOvaFile`: fetch the chunk if needed, unzip it, then
      delete it. */
  function DownloadAndBuildOvaFile(w: World, d: Disk, f: VmList.ChunkFile): (r: Step)
    ensures d.contentFetches <= r.disk.contentFetches <= d.contentFetches + 1
    ensures r.err.None? ==> VmList.GetLocalFileName(f) !in r.disk.files
  {
    var downloaded := DownloadFileIfNeeded(w, d, f);
    if downloaded.err.Some? then downloaded
    else
      var filename := VmList.GetLocalFileName(f);
      var unzipped := UnzipFile(w, downloaded.disk, filename);
      if unzipped.err.Some? then unzipped
      else RemoveFile(w, unzipped.disk, filename)
  }

  /** The chunk file is removed only after both the download and the unzip
      succeeded; an earlier failure is returned as it is and removes nothing. */
  lemma ChunkRemovedOnlyAfterSuccess(w: World, d: Disk, f: VmList.ChunkFile)
    ensures var filename := VmList.GetLocalFileName(f);
            var downloaded := DownloadFileIfNeeded(w, d, f);
            var unzipped := UnzipFile(w, downloaded.disk, filename);
            var r := DownloadAndBuildOvaFile(w, d, f);
            && (downloaded.err.Some? ==> r == downloaded)
            && (downloaded.err.None? && unzipped.err.Some? ==> r == unzipped)
            && (r.err.None? ==> downloaded.err.None? && unzipped.err.None? &&
                                filename !in r.disk.files &&
                                r.disk.files == unzipped.disk.files - {filename})
  {
  }

  /** A chunk that already verifies locally is unzipped and removed without
      any content request. */
  lemma UpToDateChunkIsNotFetched(w: World, d: Disk, f: VmList.ChunkFile)
    requires FetchMd5(w, f.md5Url).Success?
    requires CalcMd5OfFile(w, d.files, VmList.GetLocalFileName(f)) == Success(FetchMd5(w, f.md5Url).value)
    ensures DownloadAndBuildOvaFile(w, d, f).disk.contentFetches == d.contentFetches
  {
    FetchOnlyWhenDigestDiffers(w, d, FetchMd5(w, f.md5Url).value, f.url, VmList.GetLocalFileName(f));
  }

  /** `DoesOvaFileExist`. */
  function DoesOvaFileExist(w: World, files: map<string, seq<byte>>, vmName: string): (r: Result<bool, Error>)
    ensures r == Success(false) <==> vmName + ".ova" !in files
  {
    FileExists(w, files, VirtualBox.GetOvaFileNameForVmName(vmName))
  }
}
