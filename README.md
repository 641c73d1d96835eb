# boomerang: the relay's jobs and fetches, and the client library

Boomerang fetches a web resource on a requester's behalf. The requester's own
address never touches the target. The relay (the "minion") receives a URL and
an optional user agent. It runs a job that fetches the URL and writes the
fetched data and a metadata record into a job directory. It then packs that
directory into a two-layer archive: an inner `file.zip` encrypted with the
password `infected`, and an outer `results.zip`. The client library
(`PyMinion`) posts the request and names a local result directory after the
time, the host and the URL path. It refuses a name that already exists,
streams the answer to disk and unpacks it.

The model has six modules:

- `Common`: options, results, bytes, chunked streams, decimal rendering,
  `posixpath.join`, base names and substrings.
- `Metadata`: the metadata dictionary, as a record with one optional field
  per key.
- `Files`: a filesystem object (`FileSystem`, with a set of directories and a
  map from file paths to contents). It has the operations the code calls:
  `mkdir`, `rmdir`, `listdir`, write, append, remove, and pyminizip's
  compression.
- `Fetch`: `fetch_basic` and `fetch_website`.
- `Jobs`: `run_job` and `get_job_results`.
- `Client`: the `PyMinion` class.

Each method that changes files is proved against a function of the old
state. Lemmas then prove what the code promises about that function over all
inputs:

- which key of the record is set on which path;
- which files exist, and what they hold;
- what each archive contains, and which password opens it;
- when the job directory is rolled back;
- when the client refuses a repeated request.

Some things are parameters:

- The network, the rendering engine, the screenshot capture, local write
  faults, the job id and session id (`uuid4` strings), and the configuration.
- On the client side: the connection test, the POST, the clock, `urlparse`'s
  netloc and path, and the zip reader.

Where the program's own comments promise more than the code does, the model
follows the code:

- The docstring of `run_job` (jobs.py:22-29) says that the data is packed
  into results.zip, which is returned. In website mode the code first
  compresses the page file named by the session id. When that file is
  missing (the engine failed, or the page file could not be opened), the
  model takes it that pyminizip raises and makes no archive
  (`Jobs.WebsiteRunEngineError`, `Jobs.WebsiteRunPageUnopened`). When
  `fetch_website` returns None, indexing it raises before any compression
  (`Jobs.WebsiteRunNothing`).
- The comment at jobs.py:54 says that a failed fetch removes the created
  directory. The code calls `os.rmdir`, which fails on a non-empty
  directory. When the page is None but resources came back, the screenshot
  and an empty page file are already written, so `rmdir` raises instead
  (`Jobs.WebsiteRunRollback`).

Two more behaviours of the code are stated as they are:

- Resource files are named with `resources.index(resource)`, the first equal
  element, so equal resources share one file (`Fetch.ResourceWrites`,
  `Fetch.ResourceFilesAt`).
- The `os.path.exists(job_path)` test in website packaging (jobs.py:88) is
  always true, so its fallback branch cannot run. The model keeps the test,
  and proves the fallback branch unreachable.

An `Archive` is a value: its entries, its password and its level.
`Files.Extract` says what the password means: an unencrypted archive opens
with or without a password, an encrypted one only with its own password.

## Model

| member | source | states |
|---|---|---|
| `Common.ChunksFlatten` | minion/Helpers/fetch.py:71-72 | concatenating the chunks of `iter_content(100000)` in order gives back the whole body, and no chunk is empty or longer than the chunk size |
| `Common.FlattenSplit` | minion/Helpers/fetch.py:71-72 | the bytes written before a failing chunk are a prefix of the whole stream |
| `Common.DecimalRoundTrip` | minion/Helpers/fetch.py:191 | the unpadded `str()` of a resource index parses back to that index |
| `Common.DecimalInjective` | minion/Helpers/fetch.py:191 | different indices give different digit strings |
| `Common.UuidAlphabet` | minion/Helpers/jobs.py:40-44 | `str(uuid4())` is a single path component of hexadecimal digits and hyphens |
| `Common.JoinChild` | minion/Helpers/jobs.py:43-44 | joining a plain name onto a directory path adds exactly one separator |
| `Common.BasenameChild` | minion/Helpers/jobs.py:71-72 | pyminizip stores `dir/name` under `name` |
| `Common.ChildInjective` | minion/Helpers/jobs.py:84 | two names joined onto one directory give the same path only if the names are equal |
| `Files.EntriesOf` | minion/Helpers/jobs.py:72 | when every source exists, the archive has one entry per source, in list order, each the source's base name and content |
| `Files.FileSystem.Mkdir` | minion/Helpers/jobs.py:45 | `os.mkdir` fails on an existing path or a missing parent; otherwise it adds exactly that directory |
| `Files.FileSystem.Rmdir` | minion/Helpers/jobs.py:53-59 | `os.rmdir` removes only an existing, empty directory; otherwise it raises and changes nothing |
| `Files.FileSystem.WriteFile` | minion/Helpers/jobs.py:62-64 | opening for writing creates or truncates exactly that file |
| `Files.FileSystem.AppendBytes` | pyminion/pyminion/pyminion.py:104-106 | one more write appends to exactly that file |
| `Files.FileSystem.RemoveFile` | pyminion/pyminion/pyminion.py:112-113 | `os.remove` deletes exactly that file |
| `Files.FileSystem.Compress` | minion/Helpers/jobs.py:71-74 | compression succeeds exactly when every source is a file; it then writes only the archive, and on failure it names a missing source and (by assumption) writes nothing |
| `Files.FileSystem.ListDir` | minion/Helpers/jobs.py:84 | `os.listdir` reports each entry of the directory exactly once, in no particular order |
| `Files.FileSystem.ChildrenAreFiles` | minion/Helpers/jobs.py:84 | in a directory without subdirectories, every listed name is a plain name of a file in it |
| `Files.FileSystem.FreshIsEmpty` | minion/Helpers/jobs.py:45 | a directory just created is empty |
| `Fetch.LStripSuffix` | minion/Helpers/fetch.py:36 | `url.lstrip()` is a suffix of the URL; it does not start with whitespace, and all it cut off was whitespace |
| `Fetch.LStripIdempotent` | minion/Helpers/fetch.py:36 | stripping a stripped URL changes nothing |
| `Fetch.RedirectChainHops` | minion/Helpers/fetch.py:99-105 | the redirects list has one `{headers, response_code}` item per hop of the history, in order |
| `Fetch.WriteChunks` | minion/Helpers/fetch.py:66-85 | the write loop reports success exactly when no fault strikes; the file holds the chunks written before the fault, and is not created when the open fails |
| `Fetch.FetchBasic` | minion/Helpers/fetch.py:15-107 | the record and the files after `fetch_basic` are those the outcome of the GET, made with the stripped URL and the user agent, determines |
| `Fetch.BasicConnectionError` | minion/Helpers/fetch.py:50-53 | a connection error gives the three base keys plus `connection_success` False, and writes no file |
| `Fetch.BasicUnexpectedError` | minion/Helpers/fetch.py:55-57 | any other exception of the GET gives only the three base keys, and writes no file |
| `Fetch.BasicOkStatus` | minion/Helpers/fetch.py:59-85 | a non-error status sets `fetch_success` True, and `fetch_object_success` tells whether every write succeeded |
| `Fetch.BasicOkPayload` | minion/Helpers/fetch.py:66-85 | the payload file holds a prefix of the body, the whole body when no write fails; no other file changes, and nothing is written when the open fails |
| `Fetch.BasicErrorStatus` | minion/Helpers/fetch.py:59-90 | a 4xx or 5xx status sets `fetch_success` False, leaves `fetch_object_success` out, and writes no file |
| `Fetch.BasicReceived` | minion/Helpers/fetch.py:91-107 | every response records the connection, headers and status; `cookies` is present exactly when the jar is non-empty, and `redirects` exactly when there is a history |
| `Fetch.FirstIndex` | minion/Helpers/fetch.py:189-191 | `list.index` returns a position of the list that holds an equal resource |
| `Fetch.FirstIndexIsFirst` | minion/Helpers/fetch.py:189-191 | no position before the one `list.index` returns holds an equal resource, so it is the first |
| `Fetch.ResourceNamePlain` | minion/Helpers/fetch.py:191 | `resource<k>` is a single path component |
| `Fetch.ResourcePathInjective` | minion/Helpers/fetch.py:191 | different indices name different resource files |
| `Fetch.WriteResources` | minion/Helpers/fetch.py:187-197 | the resource loop opens and writes every resource in order up to the failing operation, giving `ResourceFiles`: a failed open leaves no file, a failed write leaves the just-opened file empty; it reports whether all were written |
| `Fetch.WriteResource` | minion/Helpers/fetch.py:188-197 | one pass of the loop: the file named after the first equal resource is opened and the resource content written to it; a failed open leaves the files unchanged, a failed write leaves that file empty, and it reports whether both steps succeeded |
| `Fetch.WritePageFiles` | minion/Helpers/fetch.py:174-202 | the page file is opened (created empty) before `page.content` is read and written, then the resources are written; a failed open leaves no page file, a failed write an empty one; success means a page exists and no operation failed |
| `Fetch.FetchWebsite` | minion/Helpers/fetch.py:110-216 | the return value (a record, None, or an exception) and the files after `fetch_website` are those the engine's outcome and the file fault (an open or a write failing, on the page or on a resource) determine |
| `Fetch.WebsiteEngineError` | minion/Helpers/fetch.py:143-146 | a timeout or engine error gives the base keys plus `connection_success` False, and writes no file |
| `Fetch.WebsiteOpenRaised` | minion/Helpers/fetch.py:148-151 | any other exception of `open` gives only the base keys, and writes no file |
| `Fetch.WebsiteNothingFetched` | minion/Helpers/fetch.py:153-157 | with neither a page nor a resource the function returns None and writes nothing, not even the screenshot |
| `Fetch.WebsitePageRecord` | minion/Helpers/fetch.py:204-216 | a page records the connection, headers and status; `fetch_success` is False exactly for 400, 401, 403 and 404 and absent otherwise; `cookies` is present exactly when the session has cookies; `redirects` is never set |
| `Fetch.PageNotResource` | minion/Helpers/fetch.py:176-191 | the page file, named by a session id, is never a resource file |
| `Fetch.ShotNotResource` | minion/Helpers/fetch.py:164-191 | the screenshot is never a resource file |
| `Fetch.ShotNotPage` | minion/Helpers/fetch.py:164-176 | the screenshot is never the page file |
| `Fetch.ResourceWritesAt` | minion/Helpers/fetch.py:187-197 | after the loop, the file of each written resource holds its content |
| `Fetch.ResourceWritesElsewhere` | minion/Helpers/fetch.py:187-197 | the loop leaves every path that is no resource file as it was |
| `Fetch.ResourceWritesKeys` | minion/Helpers/fetch.py:187-197 | the loop creates only resource files of positions in the list |
| `Fetch.ResourceFilesAt` | minion/Helpers/fetch.py:187-197 | after the loop, each resource written before the fault holds its content, unless the failing write truncated that same file, which is then empty |
| `Fetch.ResourceFilesFrame` | minion/Helpers/fetch.py:187-197 | the loop changes no path that is not a resource file, and creates only resource files of positions in the list |
| `Fetch.WebsitePageFiles` | minion/Helpers/fetch.py:158-202 | with a page, the screenshot (if captured) is written; the page file exists unless its open fails, holding the page, or nothing when its write fails; a failed page open writes nothing more; only the screenshot, the page and resource files can be new, and nothing else changes |
| `Fetch.WebsiteResourceFiles` | minion/Helpers/fetch.py:176-197 | once the page is written, each resource written before a failure holds its content, the resource whose write fails after its open is left empty (so is an equal earlier resource sharing its file), and with no failure every resource has its file |
| `Fetch.WebsitePageNone` | minion/Helpers/fetch.py:174-208 | resources but no page: the screenshot and an empty page file are written, no resource file is, and the function raises |
| `Jobs.UserAgent` | minion/Helpers/jobs.py:34-37 | the request's user agent when given, the configured default otherwise |
| `Jobs.PickedNames` | minion/Helpers/jobs.py:84 | the picked names are exactly the listed names containing "resource" or ".png" |
| `Jobs.CompressionList` | minion/Helpers/jobs.py:84 | the comprehension yields the picked names in listing order, each joined onto the job directory |
| `Jobs.Pick` | minion/Helpers/jobs.py:84 | the loop building the compression list yields `CompressionList` |
| `Jobs.PickedInFiles` | minion/Helpers/jobs.py:84-90 | when every picked name is a file of the job directory, every path of the compression list exists |
| `Jobs.PackageBasic` | minion/Helpers/jobs.py:66-76 | the basic packaging gives `BasicArchives` of the old files |
| `Jobs.PackSample` | minion/Helpers/jobs.py:70-72 | with a payload file, it makes `file.zip` and then `results.zip` |
| `Jobs.PackInner` | minion/Helpers/jobs.py:71 | `file.zip` holds the payload under the job id, encrypted with "infected" at level 1 |
| `Jobs.PackOuter` | minion/Helpers/jobs.py:72 | `results.zip` holds `results.json` and `file.zip` in that order, unencrypted, at level 9 |
| `Jobs.PackMetadataOnly` | minion/Helpers/jobs.py:73-74 | without a payload file, `results.zip` holds `results.json` alone |
| `Jobs.CompressWebsite` | minion/Helpers/jobs.py:88-90 | the two compressions give `WebsiteArchives`; the results path is returned exactly when the file named by the remote job id exists, and otherwise the missing file is reported |
| `Jobs.PackageWebsite` | minion/Helpers/jobs.py:78-93 | the listing is taken after `results.json` is written; no metadata means a failure with nothing packed, and otherwise the archives are packed from that listing |
| `Jobs.GetJobResults` | minion/Helpers/jobs.py:96-112 | "Job Does not Exist" exactly when the job directory is missing; "Results not there" exactly when the directory exists but `results.zip` is not a file; otherwise the path of an existing `results.zip` |
| `Jobs.RunBasic` | minion/Helpers/jobs.py:47-76 | a basic job writes the payload, `results.json` with the returned record and the archives; `get_job_results` then finds the returned path |
| `Jobs.RunWebsite` | minion/Helpers/jobs.py:47-93 | a website job rolls back or fails as `fetch_website` ends; otherwise it writes `results.json` and packs the archives; `get_job_results` then finds the returned path |
| `Jobs.RunJob` | minion/Helpers/jobs.py:15-93 | a missing URL or a failing `mkdir` changes nothing; otherwise the job of the requested mode runs in its fresh directory; a returned path is what `get_job_results` gives |
| `Jobs.JobPaths` | minion/Helpers/jobs.py:43-69 | the payload, `results.json`, `file.zip` and `results.zip` are four distinct entries of the job directory |
| `Jobs.PackedFetched` | minion/Helpers/jobs.py:84 | every resource file and the screenshot are picked |
| `Jobs.NotPackedBy` | minion/Helpers/jobs.py:84 | a name that lacks a letter of "resource" and a letter of ".png" is not picked |
| `Jobs.UuidNotPacked` | minion/Helpers/jobs.py:84 | the page file, named by a uuid, is not picked |
| `Jobs.FixedNameNotPacked` | minion/Helpers/jobs.py:84-86 | `results.json`, `file.zip` and `results.zip` are not picked by the comprehension, so the picked entries that `Jobs.WebsiteArchivesPicked` and `Jobs.WebsiteArchivesTail` place before the two appended names never repeat them |
| `Jobs.BasicArchivesContents` | minion/Helpers/jobs.py:66-76 | `results.zip` is unencrypted and starts with `results.json`; it has a second entry, `file.zip`, exactly when the payload exists; `file.zip` opens only with "infected", to the payload under the job id; nothing else changes |
| `Jobs.BasicRunRefused` | minion/Helpers/jobs.py:47-76 | when the connection is refused, `results.zip` holds only `results.json` with `connection_success` False, and no `file.zip` exists |
| `Jobs.BasicRunPayload` | minion/Helpers/jobs.py:47-76 | a successful fetch gives a `results.zip` with `results.json` (both success flags True) and a `file.zip` that opens with "infected" to the body |
| `Jobs.WebsiteArchivesTail` | minion/Helpers/jobs.py:78-90 | `results.zip` is unencrypted and ends with `results.json` and `file.zip` (the page file under its name), after one entry per picked name |
| `Jobs.PickedEntries` | minion/Helpers/jobs.py:84-90 | the entries archived from the picked paths are the picked names in listing order, each with its file's content |
| `Jobs.PickedNotFileZip` | minion/Helpers/jobs.py:84-90 | no picked path is `file.zip` |
| `Jobs.WebsiteArchivesPicked` | minion/Helpers/jobs.py:84-90 | the entries before `results.json` are exactly the picked names, in listing order, with their contents |
| `Jobs.WebsiteRunPage` | minion/Helpers/jobs.py:47-93 | a page whose file could be opened gives `results.zip` ending in `results.json`, with the page's record, and `file.zip`, with the page file under the session id: the page, or empty when writing it failed |
| `Jobs.ResourcePicked` | minion/Helpers/jobs.py:84 | a resource file in the listed directory is among the picked names |
| `Jobs.WebsiteRunPacksResources` | minion/Helpers/jobs.py:84-90 | once the page is written, the file of every resource written before a failure is among the picked names, so it is packed into `results.zip` |
| `Jobs.WebsiteRunRollback` | minion/Helpers/jobs.py:53-59 | resources without a page: the directory is removed and the error passed on exactly when neither the screenshot nor the page file was written; otherwise `rmdir` fails on the non-empty directory |
| `Jobs.WebsiteRunNothing` | minion/Helpers/jobs.py:61-89 | neither page nor resource: `results.json` holds null, the job fails on indexing it, and no archive is made |
| `Jobs.WebsiteRunEngineError` | minion/Helpers/jobs.py:61-90 | an engine failure: `results.json` records `connection_success` False, but the missing page file makes compression fail, so no `results.zip` exists |
| `Jobs.WebsiteRunPageUnopened` | minion/Helpers/jobs.py:61-90 | a page whose file could not be opened: `results.json` records `fetch_object_success` False, compressing the missing page file fails, and neither archive exists |
| `Client.BaseUrlShape` | pyminion/pyminion/pyminion.py:35-53 | the base URL is scheme, `://`, host and the optional port, then `/` in basic mode or `/website` in website mode |
| `Client.ConnectError` | pyminion/pyminion/pyminion.py:32-46 | a protocol other than http or https is refused first; otherwise construction fails exactly when the GET of the plain base URL does not answer 200 |
| `Client.PathPrefix` | pyminion/pyminion/pyminion.py:77 | the prefix is the first eight characters of the path, or the whole path when it is shorter |
| `Client.StripMembers` | pyminion/pyminion/pyminion.py:80-82 | removal keeps exactly the characters outside the removed set |
| `Client.StripTwice` | pyminion/pyminion/pyminion.py:80-82 | removing one set of characters and then another equals removing both at once |
| `Client.StripSame` | pyminion/pyminion/pyminion.py:80-82 | only removed characters that occur in the string matter |
| `Client.StripSubsequence` | pyminion/pyminion/pyminion.py:80-82 | what remains is a subsequence of the original |
| `Client.SanitizedPrefix` | pyminion/pyminion/pyminion.py:76-82 | the sanitised prefix is at most eight characters long, free of denylisted characters, and a subsequence of the raw prefix; sanitising it again changes nothing |
| `Client.SanitizePrefix` | pyminion/pyminion/pyminion.py:80-82 | the loop over the original prefix's characters, calling `replace` for each denylisted one, removes exactly the denylisted characters |
| `Client.ResultNamePlain` | pyminion/pyminion/pyminion.py:85-88 | with a netloc free of '/', the result name is one path component, lying directly in the return path |
| `Client.ResultNameAmbiguous` | pyminion/pyminion/pyminion.py:85-88 | no separator follows the seconds field, so a request to 11.2.3.4 at second 1 and one to 1.2.3.4 at second 11 get the same directory |
| `Client.Payload` | pyminion/pyminion/pyminion.py:70-98 | the payload always maps "url" to the URL, has "user-agent" exactly when one is given, and has no other key |
| `Client.ExtractInto` | pyminion/pyminion/pyminion.py:108-109 | extracting keeps every path that existed before |
| `Client.ExtractAt` | pyminion/pyminion/pyminion.py:108-109 | the last member with a given name decides that file's content |
| `Client.ExtractElsewhere` | pyminion/pyminion/pyminion.py:108-109 | a path that no member is extracted to keeps its state |
| `Client.DeliveryResult` | pyminion/pyminion/pyminion.py:100-123 | the result path is returned exactly on a 200 whose body reads as an archive; None exactly on any other status; anything else raises |
| `Client.DeliveryOk` | pyminion/pyminion/pyminion.py:103-117 | a 200 whose archive has distinct members leaves exactly those members, with their contents, in the result directory and returns the path; `res.zip` is gone, or still holds the body when `os.remove` failed, which is ignored; no other path is touched |
| `Client.PyMinion.constructor` | pyminion/pyminion/pyminion.py:35-53 | the base URL is the plain one, switched to the `/website` endpoint in website mode |
| `Client.PyMinion.Connect` | pyminion/pyminion/pyminion.py:19-53 | construction fails with the protocol or connection error `ConnectError` gives; otherwise it yields a new client with the mode's base URL |
| `Client.PyMinion.RequestUrl` | pyminion/pyminion/pyminion.py:55-123 | an existing result path raises the repeat warning; a failing `mkdir` raises its error; neither changes anything; otherwise exactly the result directory is added, and the result and files follow from the relay's answer to the payload |
| `Client.PyMinion.RequestTwice` | pyminion/pyminion/pyminion.py:90-94 | two identical requests in the same second create at most one directory, and once it exists the second request is refused |
| `Client.Deliver` | pyminion/pyminion/pyminion.py:103-117 | the 200 branch writes the body to `res.zip`, extracts it and removes it (ignoring a failed removal), giving `DeliveryFiles`; it succeeds exactly when the body reads as an archive |
| `Client.WriteBody` | pyminion/pyminion/pyminion.py:104-106 | writing the chunks of 100000 bytes in turn leaves `res.zip` holding the whole body |
| `Client.ExtractAll` | pyminion/pyminion/pyminion.py:108-109 | the member-by-member extraction gives `ExtractInto` of the old files |

## Left out

- Logging (`log_debug`, the `print` calls) has no effect on state and is not modelled.
- Two `log_debug` calls, at fetch.py:56 and fetch.py:88, lack their closing parenthesis. They are modelled as the code evidently intends: log, then carry on.
- The HTTP framing is left out: the Flask routes of minion.py, the status mapping of responses.py, and JSON serialisation as text. `results.json` holds the record as a value.
- A TLS certificate is never checked (`verify=False`). This affects only the network, which is a parameter.
- pyminizip's and zipfile's byte formats are not modelled. An archive is a value with entries, a password and a level. The client's zip reader is a parameter from bytes to members.
- `Client.PyMinion.RequestUrl`: archives with nested or `.`/`..` members are not modelled. The zip reader is required to list only plain member names.
- Local write failures on the client side are not modelled, except a failing `os.remove` of `res.zip`, which the code ignores: the client's other file writes always succeed. Write failures while `res.zip` is being streamed or extracted would raise, and that is not covered.
- Clocks, `uuid4` and `urlparse` are parameters: a `Stamp`, the job and session ids, and the netloc and path strings.
- Resource identity is an explicit `id` field. `resources.index` compares by equality, which the model takes as equality of the whole resource value.
- An unsupported mode (neither "basic" nor "website") makes `response_info` unbound in the code. `Mode` has only the two supported values.
- Concurrency of relay jobs is not modelled: each job owns its directory.
- `close()` and write buffering are not modelled: writes reach the file at once.
- `Fetch.IsSpace` is Python 2.7's `unicode.isspace`, which is what `url.lstrip()` uses on the decoded JSON URL; a URL given as a byte string would strip fewer characters.
- The port is a natural number; a negative or non-numeric port is not modelled.
- `raise_for_status` is modelled by its rule alone: it raises for a status from 400 to 599.
- The screenshot capture is a parameter: `shot` is the bytes it writes, or None when it fails.
- Two different requests can map to one result directory (`Client.ResultNameAmbiguous`). This is stated as a property, not corrected.
- `Jobs.RunJob`: the request arguments are strings (`map<string, string>`). A URL of another JSON type makes `url.lstrip()` (fetch.py:36, fetch.py:128) raise outside any `try`, as can starting the rendering session (`Ghost().start`, fetch.py:133). Those exceptions are the code's usual way into the rollback of jobs.py:53-59, which removes the still empty directory; the model reaches that rollback only when the page file cannot be opened and no screenshot was written.
- `Jobs.RunJob`: the relay's own writes after the fetch are assumed to succeed. These are the `results.json` write (jobs.py:62-63) and pyminizip's archive writes (jobs.py:70-71, 73, 88-89, 91). `json.dump` is also assumed not to raise. In Python 2 it raises on a byte-string value that is not valid UTF-8, such as a response header value or a cookie value. When any of these steps raises, `run_job` raises with it, outside any `try`. A partial `results.json` or archive may then be left behind, the job directory is not rolled back, and no path is returned. A full disk has the same effect. In the model these writes always succeed, so, for example, every basic job gives `Ok` with `results.zip`.
- `Files.FileSystem.Compress`: that a failed pyminizip compression writes nothing, and in particular no partial archive, is an assumption of the model. pyminizip's C code is not part of this model.
- A write that raises part way through (a full disk) may leave part of its data in the file. The model leaves the file empty, as an encoding error does before any byte is written.
