/**
  `FlagFileHandler`: reacts to a created file by registering a run for its
  directory and uploading the directory's files through the client. The run
  directory's contents and the service's answers are parameters; what the
  handler does shows in the client's trace.
*/
module Watcher {
  import opened Wrappers
  import opened Text
  import opened Paths
  import opened Http
  import opened Client
  import opened Uploads

  lemma AppendOne(trace: seq<Call>, done: seq<Call>, call: Call)
    ensures trace + (done + [call]) == trace + done + [call]
  {
  }

  lemma AppendThree(trace: seq<Call>, a: seq<Call>, b: seq<Call>, c: seq<Call>)
    ensures trace + a + b + c == trace + (a + (b + c))
  {
  }

  lemma AppendNothing(trace: seq<Call>, a: seq<Call>, b: seq<Call>)
    ensures trace + a + b == trace + (a + (b + []))
  {
  }

  class FlagFileHandler {
    const client: APIClient
    const watchRoot: Path

    constructor (client: APIClient, watchRoot: string)
      ensures this.client == client && this.watchRoot == ParsePath(watchRoot)
    {
      this.client := client;
      this.watchRoot := ParsePath(watchRoot);
    }

    /**
      `on_created(event)`: directories and paths not ending in "FLAG" cause
      nothing; otherwise the flag file's parent directory is processed, once.
      `listing` and `extraction` describe that directory, `created` and
      `attempt` are the service's answers.
    */
    method OnCreated(event: FileEvent, listing: seq<Entry>, extraction: Extraction,
                     created: Reply<Option<string>>, attempt: nat -> UploadAttempt)
      returns (outcome: Outcome)
      modifies client`trace
      ensures !Triggers(event) ==> client.trace == old(client.trace) && outcome == Done
      ensures Triggers(event) ==>
        var eff := ProcessEffect(client.baseUrl, AuthHeaders(client.token), RunDirectory(event),
                                 listing, extraction, created, attempt);
        client.trace == old(client.trace) + eff.calls && outcome == eff.outcome
    {
      if event.isDirectory {
        return Done;
      }
      if EndsWith(event.srcPath, FlagSuffix) {
        var flagPath := ParsePath(event.srcPath);
        var subdir := Parent(flagPath);
        outcome := ProcessDirectory(subdir, listing, extraction, created, attempt);
      } else {
        outcome := Done;
      }
    }

    /**
      `process_directory(subdir)`: the calls it makes and its outcome are
      those of `ProcessEffect` for the client's base URL and current token.
    */
    method ProcessDirectory(subdir: Path, listing: seq<Entry>, extraction: Extraction,
                            created: Reply<Option<string>>, attempt: nat -> UploadAttempt)
      returns (outcome: Outcome)
      modifies client`trace
      ensures var eff := ProcessEffect(client.baseUrl, AuthHeaders(client.token), subdir,
                                       listing, extraction, created, attempt);
        client.trace == old(client.trace) + eff.calls && outcome == eff.outcome
    {
      ghost var base, headers := client.baseUrl, AuthHeaders(client.token);
      var runName := Name(subdir);
      var run := client.CreateRun(runName, created);
      if run.Err? {
        return Raised(run.error);
      }
      var runId := run.value;
      ghost var create := CreateRunCall(RunsUrl(base), runName, headers);
      ghost var direct := UploadEach(base, headers, runId, DirectUploads(subdir, listing), 0, attempt);
      ghost var afterRun := RunEffect(base, headers, runId, subdir, listing, extraction, attempt);
      assert ProcessEffect(base, headers, subdir, listing, extraction, created, attempt) == Prepend([create], afterRun);
      outcome := UploadDirect(subdir, listing, runId, attempt);
      if outcome.Raised? {
        assert afterRun == direct;
        return;
      }
      ghost var archive := ArchiveEffect(base, headers, runId, subdir, listing, extraction, attempt);
      assert afterRun == Prepend(direct.calls, archive);
      if HasName(listing, ZipName) {
        if Entry(ExtractDir, true) in listing {
          assert archive == Effect([], Raised(FileSystemError));
          AppendNothing(old(client.trace), [create], direct.calls);
          return Raised(FileSystemError);
        }
        if Entry(ZipName, true) !in listing {
          assert archive == Effect([], Raised(FileSystemError));
          AppendNothing(old(client.trace), [create], direct.calls);
          return Raised(FileSystemError);
        }
        if extraction.ExtractionFailed? {
          assert archive == Effect([], Raised(BadArchive));
          AppendNothing(old(client.trace), [create], direct.calls);
          return Raised(BadArchive);
        }
        var n := |DirectUploads(subdir, listing)|;
        var unpacked := ExtractedFiles(subdir, extraction.names);
        assert archive == UploadEach(base, headers, runId, unpacked, n, attempt);
        outcome := UploadExtracted(unpacked, runId, n, attempt);
        AppendThree(old(client.trace), [create], direct.calls, archive.calls);
      } else {
        assert archive == Effect([], Done);
        AppendNothing(old(client.trace), [create], direct.calls);
      }
    }

    /**
      The first loop of `process_directory`: every listed regular file whose
      name does not end in "FLAG", in listing order, until one upload raises.
    */
    method UploadDirect(subdir: Path, listing: seq<Entry>, runId: Option<string>,
                        attempt: nat -> UploadAttempt)
      returns (outcome: Outcome)
      modifies client`trace
      ensures var eff := UploadEach(client.baseUrl, AuthHeaders(client.token), runId,
                                    DirectUploads(subdir, listing), 0, attempt);
        client.trace == old(client.trace) + eff.calls && outcome == eff.outcome
    {
      ghost var base, headers := client.baseUrl, AuthHeaders(client.token);
      ghost var whole := UploadEach(base, headers, runId, DirectUploads(subdir, listing), 0, attempt);
      ghost var done: seq<Call> := [];
      // count is this event's upload_file calls so far; attempt(count) is what the next one meets.
      var count := 0;
      var i := 0;
      while i < |listing|
        invariant 0 <= i <= |listing|
        invariant client.trace == old(client.trace) + done
        invariant AuthHeaders(client.token) == headers
        invariant whole == Prepend(done, UploadEach(base, headers, runId, DirectUploads(subdir, listing[i..]), count, attempt))
      {
        var entry := listing[i];
        assert listing[i..][1..] == listing[i + 1..];
        ghost var later := DirectUploads(subdir, listing[i + 1..]);
        if entry.isFile && !EndsWith(entry.name, FlagSuffix) {
          var file := Child(subdir, entry.name);
          assert DirectUploads(subdir, listing[i..]) == [file] + later;
          UploadAdvance(base, headers, runId, file, later, count, attempt, done, whole);
          var result := client.UploadFile(runId, file, attempt(count));
          AppendOne(old(client.trace), done, UploadFileCall(AttachmentsUrl(base, runId), file, headers));
          done := done + [UploadFileCall(AttachmentsUrl(base, runId), file, headers)];
          if result.Raised? {
            return result;
          }
          count := count + 1;
        } else {
          assert DirectUploads(subdir, listing[i..]) == later;
        }
        i := i + 1;
      }
      assert whole == Effect(done, Done);
      return Done;
    }

    /**
      The second loop of `process_directory`: every extracted entry, in the
      order given, until one upload raises; `n` uploads came before.
    */
    method UploadExtracted(files: seq<Path>, runId: Option<string>, n: nat, attempt: nat -> UploadAttempt)
      returns (outcome: Outcome)
      modifies client`trace
      ensures var eff := UploadEach(client.baseUrl, AuthHeaders(client.token), runId, files, n, attempt);
        client.trace == old(client.trace) + eff.calls && outcome == eff.outcome
    {
      ghost var base, headers := client.baseUrl, AuthHeaders(client.token);
      ghost var whole := UploadEach(base, headers, runId, files, n, attempt);
      ghost var done: seq<Call> := [];
      var j, k := 0, n;
      while j < |files|
        invariant 0 <= j <= |files|
        invariant client.trace == old(client.trace) + done
        invariant AuthHeaders(client.token) == headers
        invariant whole == Prepend(done, UploadEach(base, headers, runId, files[j..], k, attempt))
      {
        var file := files[j];
        assert files[j..] == [file] + files[j + 1..];
        UploadAdvance(base, headers, runId, file, files[j + 1..], k, attempt, done, whole);
        var result := client.UploadFile(runId, file, attempt(k));
        AppendOne(old(client.trace), done, UploadFileCall(AttachmentsUrl(base, runId), file, headers));
        done := done + [UploadFileCall(AttachmentsUrl(base, runId), file, headers)];
        if result.Raised? {
          return result;
        }
        j, k := j + 1, k + 1;
      }
      assert whole == Effect(done, Done);
      return Done;
    }
  }
}
