# BAM uploader: a Dafny model of the session and upload logic

The uploader watches a directory tree. When a file whose path ends in `FLAG`
appears, it registers a *run* with a remote service and uploads the run
directory's files to it. This project models the two classes of `main.py`
that do this work, and proves what they do.

`APIClient` holds the session.
- Its constructor strips trailing slashes from the base URL.
- It loads a token from the token file.
- It probes the token with `GET /users/me/`.
- When the probe fails, it logs in once with `POST /auth/login/` and saves the new token.
- Beyond the session, it offers `create_run` (`POST /runs`) and `upload_file` (`POST /runs/<id>/attachments`).

`FlagFileHandler.on_created` works in three steps.
1. It ignores directories and paths that do not end in `FLAG`.
2. It hands the flag file's parent directory to `process_directory`.
3. `process_directory` calls `create_run` once, with the directory's name. It then uploads every regular child whose name does not end in `FLAG`, in listing order. If `special_content.zip` exists, it unpacks the archive into `extracted/` and uploads what that directory lists. The first exception ends all of it.

How the Dafny files are laid out:
- `Http.dfy`: the service's answers (`Reply`), the errors (`Error`) and the calls made (`Call`).
- `Client.dfy`: the class `APIClient`. Its `trace` field records every request it issues or attempts, and every write of the token file, in order.
- `Uploads.dfy`: pure functions that say which calls one flag event causes and how it ends (`ProcessEffect`), plus the lemmas about it.
- `Watcher.dfy`: the class `FlagFileHandler`. Its methods have the source's loops, and each is proved to append exactly `ProcessEffect`'s calls to the client's trace.
- `Text.dfy`: the Python `str` operations the code uses.
- `Paths.dfy`: the `pathlib` operations the code uses.

The outside world enters only as parameters:
- the token file's contents (`stored`);
- the answer to each request (`Reply`);
- the run directory's listing (`Entry` values in `iterdir()` order);
- the result of unpacking the archive (`Extraction`);
- for each `upload_file` call of an event, numbered from 0, whether the file could be opened and what the service answered (`attempt`).

## Model

| member | source | states |
|---|---|---|
| Text.EndsWith | main.py:132 | Python's `endswith`: the string is at least as long as the suffix and its last characters are the suffix |
| Text.EndsWithSplits | main.py:132 | a string that ends with the suffix is its front followed by the suffix |
| Text.EndsWithAppend | main.py:145 | any front followed by the suffix ends with the suffix |
| Text.RStripSlash | main.py:39 | the stored base URL is a prefix of the given one, only '/' characters were dropped, and it never ends in '/' |
| Text.RStripSlashIdempotent | main.py:39 | normalising a base URL that is already normalised changes nothing |
| Text.RStripSlashIgnoresTrailingSlashes | main.py:39 | base URLs that differ only in trailing slashes are normalised to the same URL |
| Text.Strip | main.py:72 | the loaded token is the file's text with Python whitespace removed from both ends, and it neither starts nor ends with whitespace |
| Text.StripKeepsTrimmed | main.py:72 | text without surrounding whitespace is loaded unchanged |
| Text.StripIdempotent | main.py:72 | stripping twice equals stripping once |
| Paths.ParsePath | main.py:133 | a parsed path's components are never empty or ".", and never contain '/' |
| Paths.Render | main.py:133 | the printer used to state the round trip of the parse (`str(p)` itself appears only in log messages): the printed form of a parsed path is never empty, and it starts with '/' exactly when the path is absolute |
| Paths.ParseRender | main.py:133 | parsing a path's printed form gives back the same path |
| Paths.Name | main.py:139 | `.name` (also at main.py:145) of a parsed path contains no '/', and it is empty only for a path without components |
| Paths.Parent | main.py:134 | `.parent` keeps the anchoring and drops exactly the last component (none for a path without components); parsed paths have parsed parents |
| Paths.Child | main.py:144-156 | `p / name` has parent `p` and name `name` |
| Paths.ChildOfParent | main.py:134 | a path with a component is its parent joined with its name |
| Paths.PathWithSuffix | main.py:132-134 | a path string ending in "FLAG" parses to a path with a last component, and that component is its `name` and ends in "FLAG" |
| Http.Decode | main.py:110-112 | a reply succeeds iff it is an answer with a status outside 400..599 and a JSON body; a missing answer raises a transport error; a 4xx/5xx status raises an HTTP error carrying that status |
| Http.UploadError | main.py:114-119 | `upload_file` raises nothing iff the file could be opened and the answer decodes |
| Http.Truthy | main.py:77 | a token (here and at main.py:100 and 105) is falsy exactly when it is None or the empty string |
| Http.AuthHeaders | main.py:104-105 | the headers hold only `Authorization`; it is present iff the token is truthy; its value is "Bearer " followed by the token |
| Http.AuthHeadersCarryToken | main.py:104-105 | the bearer header gives back the exact token |
| Http.TokenValid | main.py:75-90 | the token is valid iff it is truthy and the probe answered with status 200; a transport failure, a 4xx and any other status give invalid |
| Http.ProbeUrl | main.py:79 | the probe URL extends the base URL by the 10 characters of "/users/me/" |
| Http.LoginUrl | main.py:93 | the login URL extends the base URL by the 12 characters of "/auth/login/" |
| Http.RunsUrl | main.py:108 | the runs URL extends the base URL by the 5 characters of "/runs" |
| Http.RunIdText | main.py:115 | the printed id is "None" exactly when the id is missing or is the string "None" |
| Http.RunIdTextInjective | main.py:115 | two present run ids print alike iff they are the same id |
| Http.MissingRunIdPrintsAsNone | main.py:115 | a missing run id gives the same attachments URL as the id "None" |
| Http.AttachmentsUrl | main.py:115 | the attachments URL lies below `RunsUrl(base) + "/"` and is 18 characters longer than the base and the printed id |
| Http.EndpointsDistinct | main.py:79-115 | for every base URL and run id, the probe, login, runs and attachments URLs are four different URLs |
| Http.AttachmentsUrlInjective | main.py:115 | equal attachments URLs on one base URL mean equal printed run ids |
| Client.LoadedToken | main.py:69-73 | a missing token file leaves the token as it was; with a file the token is the file's text with only whitespace removed from its two ends, and it never starts or ends with whitespace |
| Client.LoadedTokenStable | main.py:64-73 | writing a loaded token back and loading it again gives the same token |
| Client.SavedTokenReloads | main.py:64-73 | a saved token without surrounding whitespace is loaded back unchanged |
| Client.APIClient.constructor | main.py:38-44 | the base URL is stored without trailing slashes; the credentials and the token file are kept; there is no token and nothing has been issued yet |
| Client.APIClient.LoadToken | main.py:69-73 | the new token is `LoadedToken` of the file and the old token; nothing else changes |
| Client.APIClient.SaveToken | main.py:64-67 | the token file afterwards holds exactly the token, and one token write is recorded |
| Client.APIClient.IsTokenValid | main.py:75-90 | the result is `TokenValid`; a probe carrying the bearer header is issued exactly when the token is truthy |
| Client.APIClient.Authenticate | main.py:92-102 | one login request is issued; a failed request, an error status or a non-JSON body raise with the token unchanged; otherwise the token becomes the "access" value, and an absent or empty value raises `MissingToken` |
| Client.APIClient.Establish | main.py:46-55 | a valid loaded token means no login and no save; otherwise exactly one login follows the probe, and exactly one save follows it when the login yields a token; success implies a truthy token |
| Client.APIClient.CreateRun | main.py:107-112 | one `create_run` call on `<base>/runs` with the session headers is recorded, and the result is the decoded "id" or the error |
| Client.APIClient.UploadFile | main.py:114-119 | one call on `<base>/runs/<id>/attachments` is recorded, even when the file cannot be opened; the outcome is `UploadError` of the attempt |
| Uploads.Triggers | main.py:130-132 | defines which events reach `process_directory`: events for files whose path ends in "FLAG" |
| Uploads.RunDirectory | main.py:133-134 | defines the directory handed to `process_directory`: the parent of the parsed flag path |
| Uploads.FlagInRunDirectory | main.py:129-136 | for a triggering event, the flag file is the child of the processed directory named by its own name, and that name ends in "FLAG" |
| Uploads.DirectUploads | main.py:144-147 | the first loop uploads at most one file per listed entry |
| Uploads.DirectUploadsMembers | main.py:144-147 | a path is uploaded by the first loop iff it is the path of a listed regular file whose name does not end in "FLAG" |
| Uploads.DirectUploadsConcat | main.py:144-147 | the first loop keeps listing order: splitting the listing splits the uploads the same way |
| Uploads.ZipStageOf | main.py:150-155 | the archive step is skipped iff no entry is named `special_content.zip`; its entries are uploaded iff `extracted` is not a regular file, the archive is a regular file and unpacking worked |
| Uploads.ExtractedFiles | main.py:152-156 | one path per listed name, in order; path i has parent `<dir>/extracted`, whose parent is `<dir>`, and name i |
| Uploads.UploadEach | main.py:144-158 | defines each of the two upload loops: one `upload_file` call per file, in order, each meeting the next attempt, stopping at the first that raises; its properties are `UploadEachShape` and `UploadEachStops` |
| Uploads.UploadEachShape | main.py:144-158 | an upload loop calls `upload_file` on a prefix of its files, in order, with the same URL and headers; every call but the last succeeded; it ends normally iff every file was uploaded without error; otherwise it ends with the last call's error |
| Uploads.UploadEachStops | main.py:144-158 | an upload loop stops at the first failed attempt, and when it ends normally every attempt succeeded |
| Uploads.RunUploadsFollowPlan | main.py:144-158 | once the run exists, the calls upload a prefix of "direct children, then extracted entries" under the run's id |
| Uploads.RunStopsAtFailedUpload | main.py:144-158 | once the run exists, no upload follows a failed one, and a failed upload's error ends the processing |
| Uploads.RunCompletes | main.py:144-158 | once the run exists, processing ends normally iff the archive step did not raise and every planned file was uploaded |
| Uploads.ProcessEffect | main.py:138-158 | defines `process_directory` as the calls it makes and how it ends: `create_run`, then the direct uploads, then the archive step and its uploads, stopping at the first exception; its properties are the `Process` lemmas below |
| Uploads.ProcessCreatesOneRunFirst | main.py:138-142 | the first call is the one `create_run`, with the directory's name; every later call is an `upload_file` under the returned id with the same headers |
| Uploads.ProcessAbortsWithoutRun | main.py:139-140 | when `create_run` raises, it is the only call and its error ends the processing |
| Uploads.ProcessUploadsPlannedFiles | main.py:138-158 | call i (from 1) uploads planned file i-1 to `<base>/runs/<id>/attachments` with the session headers, direct children first, then extracted entries |
| Uploads.ProcessStopsAtFailedUpload | main.py:138-158 | every upload but the last one succeeded, and a failed last upload ends the processing with its error |
| Uploads.ProcessCompletes | main.py:138-158 | processing ends normally iff the run was created, the archive step did not raise, and every planned file was uploaded without error |
| Uploads.FlagNeverUploaded | main.py:129-147 | the flag file that triggered the event is never uploaded |
| Watcher.FlagFileHandler.constructor | main.py:125-127 | the handler keeps the client and the parsed watch root |
| Watcher.FlagFileHandler.OnCreated | main.py:129-136 | directories and paths not ending in "FLAG" change nothing; otherwise the calls and the outcome are those of processing the flag file's parent |
| Watcher.FlagFileHandler.ProcessDirectory | main.py:138-158 | the client's trace grows by exactly the calls of `ProcessEffect`, and the outcome is its outcome |
| Watcher.FlagFileHandler.UploadDirect | main.py:144-147 | the first loop appends exactly `UploadEach`'s calls for the direct uploads, and ends with its outcome |
| Watcher.FlagFileHandler.UploadExtracted | main.py:156-158 | the second loop appends exactly `UploadEach`'s calls for the extracted entries, numbered after the direct uploads, and ends with its outcome |

## Left out

- Logging, the `print` in `_token_path` and the log file setup (main.py:16-24, 61): they have no effect on behaviour.
- `load_config`, `main`, the watchdog `Observer` and its thread (main.py:29-32 and the entry point): they are configuration and I/O. No concurrency between handler calls is modelled.
- Networking and JSON: `requests` is replaced by the `Reply` it yields. A reply carries only the JSON field the caller reads ("access", "id"), or the fact that reading the body raised: `.json()` failed, or, for the login and `create_run`, the JSON is not an object, so `.get` raised. `upload_file` never calls `.get`, so any JSON answer to it succeeds. The request payloads are recorded, but the login's `Content-Type` header is not. Non-string "access" or "id" values are out of scope.
- `_is_token_valid`'s 5-second timeout is covered: a timeout is a `TransportFailure`.
- The login, `create_run` and `upload_file` requests (main.py:97, 110, 117) have no timeout and can block forever. The model gives every request a `Reply`, so it does not capture a request that never returns.
- The token file's location (`os.path.abspath`), its text encoding and newline translation are not modelled. A read or write that fails for any reason other than a missing file is not modelled either.
- `pathlib` edge cases are not modelled: the POSIX "//" root and how ".." and symbolic links are resolved. A path is its root flag plus its components.
- An entry's kind is reduced to `is_file()` as a boolean, so broken links and special files are not modelled. Whether `special_content.zip` exists is reduced to a listed entry having that name.
- Zip internals are not modelled. The result of unpacking (`Extraction`) is a parameter, and so is the listing of `extracted/` afterwards. That listing includes entries that were already there and sub-directories. Uploading a sub-directory fails like any unreadable file, through `attempt`.
- The file handle that `upload_file` leaves open is not modelled.
- Client.APIClient.SaveToken: requires a token to be present. Python would raise `TypeError` when writing `None`, but `__init__` only calls `_save_token` after a successful login has produced a truthy token.
- Client.APIClient.Establish: `__init__` is split into the constructor (main.py:38-44) and `Establish` (main.py:46-55), because a Dafny constructor cannot end in an exception. A failed `Establish` is the Python constructor raising.
- `process_directory` checks no session itself. The model, like the code, uses the client's current token for every call.
- Three failures of the file system cannot happen in the model: `iterdir()` raising on the run directory (main.py:144), `is_file()` raising (main.py:145), and `mkdir` failing for any reason other than a regular file already named `extracted` (main.py:153). The listing and `Entry.isFile` are given, and `Extraction` covers only the archive step's outcome.
- This code has none of the following, so neither does the model:
  - a wait for the run directory to settle before processing;
  - recursive uploads of sub-directories;
  - skipping a failed upload and going on (an upload error ends the processing);
  - a configurable flag suffix ("FLAG" is fixed);
  - an ordering of `iterdir()` (the order is whatever the listing parameter says).
