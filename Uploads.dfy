/**
  What one flag event makes the uploader do, as functions of the event, of
  the run directory's listing and of the service's answers: which directory
  is processed (`on_created`), and the calls `process_directory` issues, in
  order, with the outcome it ends in.
*/
module Uploads {
  import opened Wrappers
  import opened Text
  import opened Paths
  import opened Http

  const FlagSuffix: string := "FLAG"
  const ZipName: string := "special_content.zip"
  const ExtractDir: string := "extracted"

  /** A creation event as the watcher delivers it. */
  datatype FileEvent = FileEvent(srcPath: string, isDirectory: bool)

  /** A child of a directory as `iterdir()` lists it; `isFile` is `Path.is_file()`. */
  datatype Entry = Entry(name: string, isFile: bool)

  /** The run directory's `extracted/` subdirectory after unpacking the archive, or a failed unpacking. */
  datatype Extraction = Extracted(names: seq<string>) | ExtractionFailed

  /** What the archive step gives: no archive, an exception, or the entries to upload. */
  datatype ZipStage = NoZip | ZipFailed(error: Error) | ZipEntries(names: seq<string>)

  /** The calls made, in order, and how the processing ended. */
  datatype Effect = Effect(calls: seq<Call>, outcome: Outcome)

  /** `calls` made before `eff`. */
  function Prepend(calls: seq<Call>, eff: Effect): Effect {
    Effect(calls + eff.calls, eff.outcome)
  }

  // ---------------------------------------------------------------------
  // on_created
  // ---------------------------------------------------------------------

  /** `on_created` goes on to `process_directory` only for a file whose path ends in "FLAG". */
  predicate Triggers(event: FileEvent) {
    !event.isDirectory && EndsWith(event.srcPath, FlagSuffix)
  }

  function FlagPath(event: FileEvent): Path {
    ParsePath(event.srcPath)
  }

  /** The directory `on_created` hands to `process_directory`: the flag file's parent. */
  function RunDirectory(event: FileEvent): Path {
    Parent(FlagPath(event))
  }

  /**
    The flag file of a triggering event is a direct child of the run
    directory, and its name ends in "FLAG".
  */
  lemma FlagInRunDirectory(event: FileEvent)
    requires Triggers(event)
    ensures Child(RunDirectory(event), Name(FlagPath(event))) == FlagPath(event)
    ensures EndsWith(Name(FlagPath(event)), FlagSuffix)
  {
    PathWithSuffix(event.srcPath, FlagSuffix);
    ChildOfParent(FlagPath(event));
  }

  // ---------------------------------------------------------------------
  // process_directory: what it uploads
  // ---------------------------------------------------------------------

  /** The children the first loop uploads: regular files whose name does not end in "FLAG". */
  predicate Uploadable(entry: Entry) {
    entry.isFile && !EndsWith(entry.name, FlagSuffix)
  }

  /** The files the first loop uploads, in listing order. */
  function DirectUploads(dir: Path, listing: seq<Entry>): (files: seq<Path>)
    ensures |files| <= |listing|
  {
    if listing == [] then []
    else
      (if Uploadable(listing[0]) then [Child(dir, listing[0].name)] else [])
      + DirectUploads(dir, listing[1..])
  }

  /** A path is uploaded directly exactly when it is the path of an uploadable child. */
  lemma {:induction false} DirectUploadsMembers(dir: Path, listing: seq<Entry>, file: Path)
    ensures file in DirectUploads(dir, listing) <==>
      exists i :: 0 <= i < |listing| && Uploadable(listing[i]) && file == Child(dir, listing[i].name)
  {
    if listing != [] {
      DirectUploadsMembers(dir, listing[1..], file);
      if file in DirectUploads(dir, listing[1..]) {
        var i :| 0 <= i < |listing[1..]| && Uploadable(listing[1..][i]) && file == Child(dir, listing[1..][i].name);
        assert listing[i + 1] == listing[1..][i];
      }
      forall i | 1 <= i < |listing| && Uploadable(listing[i]) && file == Child(dir, listing[i].name)
        ensures file in DirectUploads(dir, listing[1..])
      {
        assert listing[1..][i - 1] == listing[i];
      }
    }
  }

  /** The first loop keeps listing order: the uploads of a listing split with it. */
  lemma {:induction false} DirectUploadsConcat(dir: Path, front: seq<Entry>, back: seq<Entry>)
    ensures DirectUploads(dir, front + back) == DirectUploads(dir, front) + DirectUploads(dir, back)
  {
    if front == [] {
      assert front + back == back;
    } else {
      assert (front + back)[1..] == front[1..] + back;
      DirectUploadsConcat(dir, front[1..], back);
    }
  }

  predicate HasName(listing: seq<Entry>, name: string) {
    exists i :: 0 <= i < |listing| && listing[i].name == name
  }

  /**
    The archive step of `process_directory`: nothing when the listing has no
    `special_content.zip`; otherwise `mkdir(exist_ok=True)` of `extracted`
    raises when a regular file has that name, opening the archive raises when
    it is not a regular file, and unpacking may fail.
  */
  function ZipStageOf(listing: seq<Entry>, extraction: Extraction): (stage: ZipStage)
    ensures stage.NoZip? <==> !HasName(listing, ZipName)
    ensures stage.ZipEntries? <==>
      HasName(listing, ZipName) && Entry(ExtractDir, true) !in listing
      && Entry(ZipName, true) in listing && extraction.Extracted?
  {
    if !HasName(listing, ZipName) then NoZip
    else if Entry(ExtractDir, true) in listing then ZipFailed(FileSystemError)
    else if Entry(ZipName, true) !in listing then ZipFailed(FileSystemError)
    else match extraction
      case ExtractionFailed => ZipFailed(BadArchive)
      case Extracted(names) => ZipEntries(names)
  }

  /**
    The unpacked entries as paths under `dir/extracted`, in listing order:
    path i lies in `dir/extracted`, which lies in `dir`, and is named by name i.
  */
  function ExtractedFiles(dir: Path, names: seq<string>): (files: seq<Path>)
    ensures |files| == |names|
    ensures forall i :: 0 <= i < |names| ==>
      && Parent(files[i]) == Child(dir, ExtractDir) && Name(files[i]) == names[i]
      && Parent(Parent(files[i])) == dir && Name(Parent(files[i])) == ExtractDir
  {
    seq(|names|, i requires 0 <= i < |names| => Child(Child(dir, ExtractDir), names[i]))
  }

  /** Everything `process_directory` sets out to upload: the direct children first, then the unpacked entries. */
  function Planned(dir: Path, listing: seq<Entry>, extraction: Extraction): seq<Path> {
    DirectUploads(dir, listing)
    + match ZipStageOf(listing, extraction)
      case ZipEntries(names) => ExtractedFiles(dir, names)
      case _ => []
  }

  // ---------------------------------------------------------------------
  // process_directory: the calls it makes
  // ---------------------------------------------------------------------

  /**
    One `upload_file` call per file, in order, stopping at the first one that
    raises. `n` is how many `upload_file` calls this event has made before,
    and `attempt(k)` is what the k-th one meets.
  */
  function UploadEach(base: string, headers: Headers, runId: Option<string>, files: seq<Path>,
                      n: nat, attempt: nat -> UploadAttempt): Effect
    decreases |files|
  {
    if files == [] then Effect([], Done)
    else
      var call := UploadFileCall(AttachmentsUrl(base, runId), files[0], headers);
      match UploadError(attempt(n))
      case Some(e) => Effect([call], Raised(e))
      case None =>
        var rest := UploadEach(base, headers, runId, files[1..], n + 1, attempt);
        Effect([call] + rest.calls, rest.outcome)
  }

  /** One step of `UploadEach`: the first file's call, then the rest unless it raised. */
  lemma UploadEachStep(base: string, headers: Headers, runId: Option<string>, file: Path,
                       rest: seq<Path>, n: nat, attempt: nat -> UploadAttempt)
    ensures var call := UploadFileCall(AttachmentsUrl(base, runId), file, headers);
      UploadEach(base, headers, runId, [file] + rest, n, attempt) ==
        if UploadError(attempt(n)).Some? then Effect([call], Raised(UploadError(attempt(n)).value))
        else Prepend([call], UploadEach(base, headers, runId, rest, n + 1, attempt))
  {
    assert ([file] + rest)[1..] == rest;
  }

  lemma PrependTwice(front: seq<Call>, back: seq<Call>, eff: Effect)
    ensures Prepend(front, Prepend(back, eff)) == Prepend(front + back, eff)
  {
    assert front + (back + eff.calls) == (front + back) + eff.calls;
  }

  /**
    A loop that has made the calls `done` of `whole` and has `[file] + later`
    left: the next call either ends `whole` with its error or leaves `later`.
  */
  lemma UploadAdvance(base: string, headers: Headers, runId: Option<string>, file: Path,
                      later: seq<Path>, k: nat, attempt: nat -> UploadAttempt,
                      done: seq<Call>, whole: Effect)
    requires whole == Prepend(done, UploadEach(base, headers, runId, [file] + later, k, attempt))
    ensures var call := UploadFileCall(AttachmentsUrl(base, runId), file, headers);
      if UploadError(attempt(k)).Some? then whole == Effect(done + [call], Raised(UploadError(attempt(k)).value))
      else whole == Prepend(done + [call], UploadEach(base, headers, runId, later, k + 1, attempt))
  {
    var call := UploadFileCall(AttachmentsUrl(base, runId), file, headers);
    UploadEachStep(base, headers, runId, file, later, k, attempt);
    PrependTwice(done, [call], UploadEach(base, headers, runId, later, k + 1, attempt));
  }

  /**
    The calls of `UploadEach` upload a prefix of the files, in order, under
    the one run id; every call but the last succeeded; the outcome is normal
    exactly when all files were uploaded without error, and otherwise it is
    the error of the last call.
  */
  lemma {:induction false} UploadEachShape(base: string, headers: Headers, runId: Option<string>,
                                           files: seq<Path>, n: nat, attempt: nat -> UploadAttempt)
    ensures var eff := UploadEach(base, headers, runId, files, n, attempt);
      && |eff.calls| <= |files|
      && (forall i :: 0 <= i < |eff.calls| ==>
            eff.calls[i] == UploadFileCall(AttachmentsUrl(base, runId), files[i], headers))
      && (forall j :: n <= j < n + |eff.calls| - 1 ==> UploadError(attempt(j)).None?)
      && (eff.outcome == Done <==>
            |eff.calls| == |files| && forall j :: n <= j < n + |files| ==> UploadError(attempt(j)).None?)
      && (eff.outcome.Raised? ==>
            |eff.calls| > 0 && UploadError(attempt(n + |eff.calls| - 1)) == Some(eff.outcome.error))
    decreases |files|
  {
    if files != [] {
      var call := UploadFileCall(AttachmentsUrl(base, runId), files[0], headers);
      if UploadError(attempt(n)).None? {
        UploadEachShape(base, headers, runId, files[1..], n + 1, attempt);
        var rest := UploadEach(base, headers, runId, files[1..], n + 1, attempt);
        var eff := UploadEach(base, headers, runId, files, n, attempt);
        assert eff.calls == [call] + rest.calls;
        forall i | 1 <= i < |eff.calls|
          ensures eff.calls[i] == UploadFileCall(AttachmentsUrl(base, runId), files[i], headers)
        {
          assert eff.calls[i] == rest.calls[i - 1];
          assert files[1..][i - 1] == files[i];
        }
      }
    }
  }

  /**
    The archive step once the direct uploads all succeeded: nothing without
    an archive, the exception of a failed step, or the uploads of the
    unpacked entries, numbered after the direct ones.
  */
  function ArchiveEffect(base: string, headers: Headers, runId: Option<string>, dir: Path,
                         listing: seq<Entry>, extraction: Extraction,
                         attempt: nat -> UploadAttempt): Effect
  {
    match ZipStageOf(listing, extraction)
    case NoZip => Effect([], Done)
    case ZipFailed(e) => Effect([], Raised(e))
    case ZipEntries(names) =>
      UploadEach(base, headers, runId, ExtractedFiles(dir, names), |DirectUploads(dir, listing)|, attempt)
  }

  /** What `process_directory` does once `create_run` returned `runId`. */
  function RunEffect(base: string, headers: Headers, runId: Option<string>, dir: Path,
                     listing: seq<Entry>, extraction: Extraction,
                     attempt: nat -> UploadAttempt): Effect
  {
    var direct := UploadEach(base, headers, runId, DirectUploads(dir, listing), 0, attempt);
    if direct.outcome.Raised? then direct
    else Prepend(direct.calls, ArchiveEffect(base, headers, runId, dir, listing, extraction, attempt))
  }

  /**
    `process_directory(dir)`: `create_run` with the directory's name; if it
    raises, nothing else; otherwise the direct uploads, then the archive step
    and the uploads of the unpacked entries, all under the id `create_run`
    returned, stopping at the first exception.
  */
  function ProcessEffect(base: string, headers: Headers, dir: Path, listing: seq<Entry>,
                         extraction: Extraction, created: Reply<Option<string>>,
                         attempt: nat -> UploadAttempt): Effect
  {
    var create := CreateRunCall(RunsUrl(base), Name(dir), headers);
    match Decode(created)
    case Err(e) => Effect([create], Raised(e))
    case Ok(runId) => Prepend([create], RunEffect(base, headers, runId, dir, listing, extraction, attempt))
  }

  /** `calls` upload a prefix of `files`, in order, to `url` with `headers`. */
  predicate UploadsOf(calls: seq<Call>, url: string, files: seq<Path>, headers: Headers) {
    && |calls| <= |files|
    && forall i :: 0 <= i < |calls| ==> calls[i] == UploadFileCall(url, files[i], headers)
  }

  lemma UploadsOfConcat(front: seq<Call>, back: seq<Call>, url: string, first: seq<Path>,
                        second: seq<Path>, headers: Headers)
    requires UploadsOf(front, url, first, headers) && |front| == |first|
    requires UploadsOf(back, url, second, headers)
    ensures UploadsOf(front + back, url, first + second, headers)
  {
    forall i | 0 <= i < |front + back|
      ensures (front + back)[i] == UploadFileCall(url, (first + second)[i], headers)
    {
      if i >= |front| {
        assert (front + back)[i] == back[i - |front|];
        assert (first + second)[i] == second[i - |first|];
      }
    }
  }

  lemma UploadsOfLonger(calls: seq<Call>, url: string, first: seq<Path>, second: seq<Path>,
                        headers: Headers)
    requires UploadsOf(calls, url, first, headers)
    ensures UploadsOf(calls, url, first + second, headers)
  {
    forall i | 0 <= i < |calls|
      ensures calls[i] == UploadFileCall(url, (first + second)[i], headers)
    {
      assert (first + second)[i] == first[i];
    }
  }

  /** Once the run exists, the calls upload a prefix of the plan, in order, under its id. */
  lemma RunUploadsFollowPlan(base: string, headers: Headers, runId: Option<string>, dir: Path,
                             listing: seq<Entry>, extraction: Extraction, attempt: nat -> UploadAttempt)
    ensures UploadsOf(RunEffect(base, headers, runId, dir, listing, extraction, attempt).calls,
                      AttachmentsUrl(base, runId), Planned(dir, listing, extraction), headers)
  {
    var url := AttachmentsUrl(base, runId);
    var direct := DirectUploads(dir, listing);
    var plan := Planned(dir, listing, extraction);
    UploadEachShape(base, headers, runId, direct, 0, attempt);
    var d := UploadEach(base, headers, runId, direct, 0, attempt);
    assert UploadsOf(d.calls, url, direct, headers);
    var r := RunEffect(base, headers, runId, dir, listing, extraction, attempt);
    var a := ArchiveEffect(base, headers, runId, dir, listing, extraction, attempt);
    var stage := ZipStageOf(listing, extraction);
    if d.outcome.Done? && stage.ZipEntries? {
      var extracted := ExtractedFiles(dir, stage.names);
      assert plan == direct + extracted;
      assert r == Prepend(d.calls, a);
      assert a == UploadEach(base, headers, runId, extracted, |direct|, attempt);
      UploadEachShape(base, headers, runId, extracted, |direct|, attempt);
      assert |d.calls| == |direct|;
      UploadsOfConcat(d.calls, a.calls, url, direct, extracted, headers);
    } else {
      if d.outcome.Done? {
        assert a.calls == [];
        assert r.calls == d.calls + [];
      } else {
        assert r == d;
      }
      assert r.calls == d.calls;
      UploadsOfLonger(d.calls, url, direct, plan[|direct|..], headers);
      assert direct + plan[|direct|..] == plan;
    }
  }

  /**
    Numbering the calls of `eff` from `n`, every call but the last met a
    successful attempt, and a last call that met a failed one ended `eff`.
  */
  predicate StopsAtFailure(eff: Effect, n: nat, attempt: nat -> UploadAttempt) {
    && (forall j :: n <= j < n + |eff.calls| - 1 ==> UploadError(attempt(j)).None?)
    && (|eff.calls| >= 1 && UploadError(attempt(n + |eff.calls| - 1)).Some? ==>
          eff.outcome == Raised(UploadError(attempt(n + |eff.calls| - 1)).value))
  }

  /** `UploadEach` stops at the first failed attempt; when it ends normally, every attempt succeeded. */
  lemma UploadEachStops(base: string, headers: Headers, runId: Option<string>, files: seq<Path>,
                        n: nat, attempt: nat -> UploadAttempt)
    ensures var eff := UploadEach(base, headers, runId, files, n, attempt);
      && StopsAtFailure(eff, n, attempt)
      && (eff.outcome == Done ==>
            |eff.calls| == |files| && forall j :: n <= j < n + |eff.calls| ==> UploadError(attempt(j)).None?)
  {
    UploadEachShape(base, headers, runId, files, n, attempt);
  }

  lemma StopsAtFailureAfter(calls: seq<Call>, eff: Effect, n: nat, attempt: nat -> UploadAttempt)
    requires forall j :: n <= j < n + |calls| ==> UploadError(attempt(j)).None?
    requires StopsAtFailure(eff, n + |calls|, attempt)
    ensures StopsAtFailure(Prepend(calls, eff), n, attempt)
  {
    var p := Prepend(calls, eff);
    assert |p.calls| == |calls| + |eff.calls|;
    if |eff.calls| == 0 && |calls| > 0 {
      assert UploadError(attempt(n + |p.calls| - 1)).None?;
    }
  }

  /**
    Once the run exists, every upload but the last succeeded, and an upload
    that raises ends the processing with its error.
  */
  lemma RunStopsAtFailedUpload(base: string, headers: Headers, runId: Option<string>, dir: Path,
                               listing: seq<Entry>, extraction: Extraction, attempt: nat -> UploadAttempt)
    ensures StopsAtFailure(RunEffect(base, headers, runId, dir, listing, extraction, attempt), 0, attempt)
  {
    var direct := DirectUploads(dir, listing);
    UploadEachStops(base, headers, runId, direct, 0, attempt);
    var d := UploadEach(base, headers, runId, direct, 0, attempt);
    var r := RunEffect(base, headers, runId, dir, listing, extraction, attempt);
    if d.outcome.Raised? {
      assert r == d;
    } else {
      var a := ArchiveEffect(base, headers, runId, dir, listing, extraction, attempt);
      assert r == Prepend(d.calls, a);
      var stage := ZipStageOf(listing, extraction);
      if stage.ZipEntries? {
        var extracted := ExtractedFiles(dir, stage.names);
        UploadEachStops(base, headers, runId, extracted, |direct|, attempt);
        assert a == UploadEach(base, headers, runId, extracted, |direct|, attempt);
      } else {
        assert a.calls == [];
      }
      StopsAtFailureAfter(d.calls, a, 0, attempt);
    }
  }

  /**
    Once the run exists, the processing ends normally exactly when the
    archive step did not raise and every planned file was uploaded.
  */
  lemma RunCompletes(base: string, headers: Headers, runId: Option<string>, dir: Path,
                     listing: seq<Entry>, extraction: Extraction, attempt: nat -> UploadAttempt)
    ensures var r := RunEffect(base, headers, runId, dir, listing, extraction, attempt);
      var plan := Planned(dir, listing, extraction);
      r.outcome == Done <==>
        && !ZipStageOf(listing, extraction).ZipFailed?
        && |r.calls| == |plan|
        && forall j :: 0 <= j < |plan| ==> UploadError(attempt(j)).None?
  {
    var r := RunEffect(base, headers, runId, dir, listing, extraction, attempt);
    var plan := Planned(dir, listing, extraction);
    var direct := DirectUploads(dir, listing);
    UploadEachShape(base, headers, runId, direct, 0, attempt);
    var d := UploadEach(base, headers, runId, direct, 0, attempt);
    var a := ArchiveEffect(base, headers, runId, dir, listing, extraction, attempt);
    var stage := ZipStageOf(listing, extraction);
    if d.outcome.Done? && stage.ZipEntries? {
      var extracted := ExtractedFiles(dir, stage.names);
      assert plan == direct + extracted;
      assert r == Prepend(d.calls, a);
      assert a == UploadEach(base, headers, runId, extracted, |direct|, attempt);
      UploadEachShape(base, headers, runId, extracted, |direct|, attempt);
      if r.outcome == Done {
        forall j | 0 <= j < |plan| ensures UploadError(attempt(j)).None? {
          if j >= |direct| {
            assert |direct| <= j < |direct| + |extracted|;
          }
        }
      }
    } else if d.outcome.Done? {
      assert r == Prepend(d.calls, a);
      assert plan == direct;
    } else {
      assert r == d;
      assert |d.calls| - 1 < |direct|;
    }
  }

  /**
    `create_run` is called exactly once, first, with the directory's base
    name; every later call is an `upload_file` under the id it returned.
  */
  lemma ProcessCreatesOneRunFirst(base: string, headers: Headers, dir: Path, listing: seq<Entry>,
                                  extraction: Extraction, created: Reply<Option<string>>,
                                  attempt: nat -> UploadAttempt)
    ensures var eff := ProcessEffect(base, headers, dir, listing, extraction, created, attempt);
      && |eff.calls| >= 1
      && eff.calls[0] == CreateRunCall(RunsUrl(base), Name(dir), headers)
      && forall i :: 1 <= i < |eff.calls| ==>
           && Decode(created).Ok?
           && eff.calls[i].UploadFileCall?
           && eff.calls[i].url == AttachmentsUrl(base, Decode(created).value)
           && eff.calls[i].headers == headers
  {
    ProcessUploadsPlannedFiles(base, headers, dir, listing, extraction, created, attempt);
  }

  /** When `create_run` raises, no file is uploaded and the exception ends the processing. */
  lemma ProcessAbortsWithoutRun(base: string, headers: Headers, dir: Path, listing: seq<Entry>,
                                extraction: Extraction, created: Reply<Option<string>>,
                                attempt: nat -> UploadAttempt)
    requires Decode(created).Err?
    ensures ProcessEffect(base, headers, dir, listing, extraction, created, attempt)
      == Effect([CreateRunCall(RunsUrl(base), Name(dir), headers)], Raised(Decode(created).error))
  {
  }

  /**
    The uploads follow the plan: call by call they are the planned files in
    order, direct children first, then unpacked entries, each sent under the
    run id `create_run` returned and with the session's headers.
  */
  lemma ProcessUploadsPlannedFiles(base: string, headers: Headers, dir: Path, listing: seq<Entry>,
                                   extraction: Extraction, created: Reply<Option<string>>,
                                   attempt: nat -> UploadAttempt)
    ensures var eff := ProcessEffect(base, headers, dir, listing, extraction, created, attempt);
      var plan := Planned(dir, listing, extraction);
      && |eff.calls| >= 1
      && eff.calls[0] == CreateRunCall(RunsUrl(base), Name(dir), headers)
      && |eff.calls| - 1 <= |plan|
      && forall i :: 1 <= i < |eff.calls| ==>
           Decode(created).Ok? &&
           eff.calls[i] == UploadFileCall(AttachmentsUrl(base, Decode(created).value), plan[i - 1], headers)
  {
    if Decode(created).Ok? {
      var runId := Decode(created).value;
      var r := RunEffect(base, headers, runId, dir, listing, extraction, attempt);
      RunUploadsFollowPlan(base, headers, runId, dir, listing, extraction, attempt);
      var create := CreateRunCall(RunsUrl(base), Name(dir), headers);
      forall i | 1 <= i < 1 + |r.calls|
        ensures ([create] + r.calls)[i] == r.calls[i - 1]
      {
      }
    }
  }

  /**
    Every upload but the last succeeded, and an upload that raises ends the
    processing with its error: no later upload is attempted.
  */
  lemma ProcessStopsAtFailedUpload(base: string, headers: Headers, dir: Path, listing: seq<Entry>,
                                   extraction: Extraction, created: Reply<Option<string>>,
                                   attempt: nat -> UploadAttempt)
    ensures var eff := ProcessEffect(base, headers, dir, listing, extraction, created, attempt);
      && (forall j :: 0 <= j < |eff.calls| - 2 ==> UploadError(attempt(j)).None?)
      && (|eff.calls| >= 2 && UploadError(attempt(|eff.calls| - 2)).Some? ==>
            eff.outcome == Raised(UploadError(attempt(|eff.calls| - 2)).value))
  {
    if Decode(created).Ok? {
      RunStopsAtFailedUpload(base, headers, Decode(created).value, dir, listing, extraction, attempt);
      var r := RunEffect(base, headers, Decode(created).value, dir, listing, extraction, attempt);
      assert |ProcessEffect(base, headers, dir, listing, extraction, created, attempt).calls| == 1 + |r.calls|;
    }
  }

  /**
    The processing ends normally exactly when the run was created, the
    archive step did not raise, and every planned file was uploaded without
    error.
  */
  lemma ProcessCompletes(base: string, headers: Headers, dir: Path, listing: seq<Entry>,
                         extraction: Extraction, created: Reply<Option<string>>,
                         attempt: nat -> UploadAttempt)
    ensures var eff := ProcessEffect(base, headers, dir, listing, extraction, created, attempt);
      var plan := Planned(dir, listing, extraction);
      eff.outcome == Done <==>
        && Decode(created).Ok?
        && !ZipStageOf(listing, extraction).ZipFailed?
        && |eff.calls| - 1 == |plan|
        && forall j :: 0 <= j < |plan| ==> UploadError(attempt(j)).None?
  {
    if Decode(created).Ok? {
      RunCompletes(base, headers, Decode(created).value, dir, listing, extraction, attempt);
    }
  }

  /** The flag file that triggered the event is never uploaded. */
  lemma FlagNeverUploaded(event: FileEvent, base: string, headers: Headers, listing: seq<Entry>,
                          extraction: Extraction, created: Reply<Option<string>>,
                          attempt: nat -> UploadAttempt)
    requires Triggers(event)
    ensures var eff := ProcessEffect(base, headers, RunDirectory(event), listing, extraction, created, attempt);
      forall i :: 1 <= i < |eff.calls| ==> eff.calls[i].UploadFileCall? && eff.calls[i].file != FlagPath(event)
  {
    var dir := RunDirectory(event);
    var flag := FlagPath(event);
    FlagInRunDirectory(event);
    var eff := ProcessEffect(base, headers, dir, listing, extraction, created, attempt);
    var plan := Planned(dir, listing, extraction);
    var direct := DirectUploads(dir, listing);
    ProcessUploadsPlannedFiles(base, headers, dir, listing, extraction, created, attempt);
    forall i | 1 <= i < |eff.calls| ensures eff.calls[i].UploadFileCall? && eff.calls[i].file != flag {
      var file := plan[i - 1];
      if i - 1 < |direct| {
        assert file == direct[i - 1];
        DirectUploadsMembers(dir, listing, file);
        var k :| 0 <= k < |listing| && Uploadable(listing[k]) && file == Child(dir, listing[k].name);
      } else {
        var stage := ZipStageOf(listing, extraction);
        assert stage.ZipEntries?;
        assert file == ExtractedFiles(dir, stage.names)[i - 1 - |direct|];
        assert |file.parts| == |dir.parts| + 2;
        assert |flag.parts| == |dir.parts| + 1;
      }
    }
  }
}
