/** The relay's job orchestration (minion/Helpers/jobs.py): run_job
    validates the request, creates the job directory, runs the fetch of the
    requested mode, writes results.json and packs the inner archive file.zip
    and the outer archive results.zip; get_job_results finds the outer
    archive of an earlier job. The job id, the configuration and everything
    the fetch depends on are parameters. */
module Jobs {
  import opened Common
  import opened Metadata
  import opened Files
  import opened Fetch

  datatype Mode = Basic | Website

  /** BOOMERANG_DEFAULT_USER_AGENT and BOOMERANG_FETCH_DIR. */
  datatype Config = Config(defaultUserAgent: string, fetchDir: Path)

  /** What the fetch of a job meets: the network and local write faults of
      the basic fetch, and the rendering engine, its session id, the netloc
      of the URL, the screenshot capture and the file writes of the website
      fetch. */
  datatype Environment = Environment(
    net: GetRequest -> BasicOutcome,
    writeFault: WriteFault,
    browser: GetRequest -> WebsiteOutcome,
    sessionId: string,
    netloc: string,
    shot: Option<Bytes>,
    fileFault: Option<FileFault>)

  /** The exceptions run_job and get_job_results raise. */
  datatype JobError =
    | MissingUrl          // ValueError("Missing URL Argument")
    | Os(os: OsError)     // OSError of mkdir, rmdir or a compression source
    | FetchFailed(fetch: FetchError)
    | NoMetadata          // TypeError: indexing the None fetch_website returned
    | JobDoesNotExist     // ValueError("Job Does not Exist")
    | ResultsNotThere     // ValueError("Results not there...")

  const Password: string := "infected"
  const InnerLevel: int := 1
  const OuterLevel: int := 9

  function JobDir(config: Config, jobId: string): Path
  {
    Join(config.fetchDir, jobId)
  }

  function SamplePath(config: Config, jobId: string): Path
  {
    Join(JobDir(config, jobId), jobId)
  }

  function JsonPath(config: Config, jobId: string): Path
  {
    Join(JobDir(config, jobId), "results.json")
  }

  function FileZipPath(config: Config, jobId: string): Path
  {
    Join(JobDir(config, jobId), "file.zip")
  }

  function ResultsZipPath(config: Config, jobId: string): Path
  {
    Join(JobDir(config, jobId), "results.zip")
  }

  /** The user agent of the request, or the configured default. */
  function UserAgent(args: map<string, string>, config: Config): (ua: string)
    ensures "user-agent" in args ==> ua == args["user-agent"]
    ensures "user-agent" !in args ==> ua == config.defaultUserAgent
  {
    if "user-agent" !in args then config.defaultUserAgent else args["user-agent"]
  }

  /** The inner archive: one file, encrypted with "infected", level 1. */
  function InnerArchive(name: string, content: Content): Content
  {
    Zip(Archive([Entry(name, content)], Some(Password), InnerLevel))
  }

  // ---------------------------------------------------------------------
  // Packaging

  /** The files after packaging a basic job whose results.json is written:
      with a payload file, file.zip holds it and results.zip holds
      results.json and file.zip; without one, results.zip holds results.json
      alone. */
  function BasicArchives(files: map<Path, Content>, config: Config, jobId: string): map<Path, Content>
    requires JsonPath(config, jobId) in files
  {
    var json := Entry("results.json", files[JsonPath(config, jobId)]);
    var sample := SamplePath(config, jobId);
    if sample in files then
      var inner := InnerArchive(jobId, files[sample]);
      files[FileZipPath(config, jobId) := inner]
           [ResultsZipPath(config, jobId) := Zip(Archive([json, Entry("file.zip", inner)], None, OuterLevel))]
    else
      files[ResultsZipPath(config, jobId) := Zip(Archive([json], None, OuterLevel))]
  }

  /** The names the website packaging picks from the listing. */
  predicate Packed(name: string)
  {
    Contains(name, "resource") || Contains(name, ".png")
  }

  /** The listed names the website packaging picks, in listing order. */
  function PickedNames(names: seq<string>): (picked: seq<string>)
    ensures forall n :: n in picked <==> n in names && Packed(n)
  {
    if names == [] then []
    else
      var last := names[|names| - 1];
      PickedNames(names[..|names| - 1]) + (if Packed(last) then [last] else [])
  }

  /** [os.path.join(dir, x) for x in names if "resource" in x or ".png" in x]:
      the picked names, in order, each joined onto the directory. */
  function CompressionList(dir: Path, names: seq<string>): (list: seq<Path>)
    ensures |list| == |PickedNames(names)|
    ensures forall i :: 0 <= i < |list| ==> list[i] == Join(dir, PickedNames(names)[i])
  {
    if names == [] then []
    else
      var last := names[|names| - 1];
      CompressionList(dir, names[..|names| - 1]) + (if Packed(last) then [Join(dir, last)] else [])
  }

  /** os.listdir(dir) of a directory holding only files: every entry name
      once, each the plain name of a file in it. */
  ghost predicate Listing(names: seq<string>, dir: Path, dirs: set<Path>, files: map<Path, Content>)
  {
    && (forall n :: n in names <==> n in ChildNames(dir, dirs, files))
    && (forall i, j :: 0 <= i < j < |names| ==> names[i] != names[j])
    && (forall n :: n in names ==> PlainName(n) && dir + "/" + n in files)
  }

  /** The files after packaging a website job whose results.json is written
      and whose listing was `names`: file.zip holds the file named by the
      remote job id, and results.zip the picked entries, results.json and
      file.zip, in that order. Nothing is packed when the inner source is
      missing. */
  function WebsiteArchives(files: map<Path, Content>, config: Config, jobId: string, remoteId: string,
                           names: seq<string>): map<Path, Content>
  {
    var dir := JobDir(config, jobId);
    var src := Join(dir, remoteId);
    if src !in files then files
    else
      var withInner := files[FileZipPath(config, jobId) := InnerArchive(Basename(src), files[src])];
      var list := CompressionList(dir, names) + [JsonPath(config, jobId), FileZipPath(config, jobId)];
      withInner[ResultsZipPath(config, jobId) := Zip(Archive(EntriesOf(list, withInner), None, OuterLevel))]
  }

  /** The packaging step of a basic job (jobs.py:67-76). */
  method PackageBasic(fs: FileSystem, config: Config, jobId: string)
    requires fs.Valid() && PlainName(jobId) && |jobId| == 36
    requires JobDir(config, jobId) in fs.dirs && fs.NoSubdirs(JobDir(config, jobId))
    requires JsonPath(config, jobId) in fs.files
    modifies fs
    ensures fs.Valid() && fs.dirs == old(fs.dirs)
    ensures fs.files == BasicArchives(old(fs.files), config, jobId)
  {
    var dir := Join(config.fetchDir, jobId);
    JoinPlain(config.fetchDir, jobId);
    JoinChild(dir, jobId);
    var samplePath := Join(dir, jobId);
    if fs.Exists(samplePath) {
      assert Under(samplePath, dir);
      PackSample(fs, config, jobId);
    } else {
      PackMetadataOnly(fs, config, jobId);
    }
  }

  /** A payload file exists: it goes into file.zip under the job id, with
      the password, and results.zip takes results.json and file.zip. */
  method PackSample(fs: FileSystem, config: Config, jobId: string)
    requires fs.Valid() && PlainName(jobId) && |jobId| == 36
    requires JobDir(config, jobId) in fs.dirs && fs.NoSubdirs(JobDir(config, jobId))
    requires JsonPath(config, jobId) in fs.files && SamplePath(config, jobId) in fs.files
    modifies fs
    ensures fs.Valid() && fs.dirs == old(fs.dirs)
    ensures fs.files == BasicArchives(old(fs.files), config, jobId)
  {
    var dir := Join(config.fetchDir, jobId);
    JoinPlain(config.fetchDir, jobId);
    JoinChild(dir, jobId);
    JoinChild(dir, "results.json");
    JoinChild(dir, "file.zip");
    JoinChild(dir, "results.zip");
    fs.CanCreateChild(dir, "file.zip");
    PackInner(fs, dir, jobId);
    fs.CanCreateChild(dir, "results.zip");
    PackOuter(fs, dir);
  }

  /** pyminizip.compress of the payload into file.zip, under its base name
      (the job id), with the password. */
  method PackInner(fs: FileSystem, dir: Path, jobId: string)
    requires fs.Valid() && PlainName(jobId)
    requires dir + "/" + jobId in fs.files && fs.CanCreate(dir + "/" + "file.zip")
    modifies fs
    ensures fs.Valid() && fs.dirs == old(fs.dirs)
    ensures fs.files == old(fs.files)[dir + "/" + "file.zip" := InnerArchive(jobId, old(fs.files)[dir + "/" + jobId])]
  {
    BasenameChild(dir, jobId);
    ghost var files0 := fs.files;
    var e := fs.Compress([dir + "/" + jobId], dir + "/" + "file.zip", Some(Password), InnerLevel);
    if e.Some? {
      assert false;
    }
    assert EntriesOf([dir + "/" + jobId], files0) == [Entry(jobId, files0[dir + "/" + jobId])];
  }

  /** pyminizip.compress_multiple of results.json and file.zip into
      results.zip, without a password. */
  method PackOuter(fs: FileSystem, dir: Path)
    requires fs.Valid()
    requires dir + "/" + "results.json" in fs.files && dir + "/" + "file.zip" in fs.files
    requires fs.CanCreate(dir + "/" + "results.zip")
    modifies fs
    ensures fs.Valid() && fs.dirs == old(fs.dirs)
    ensures fs.files == old(fs.files)[dir + "/" + "results.zip" :=
      Zip(Archive([Entry("results.json", old(fs.files)[dir + "/" + "results.json"]),
                   Entry("file.zip", old(fs.files)[dir + "/" + "file.zip"])], None, OuterLevel))]
  {
    var jsonPath := dir + "/" + "results.json";
    var fileZipPath := dir + "/" + "file.zip";
    BasenameChild(dir, "results.json");
    BasenameChild(dir, "file.zip");
    EntriesOfPair(jsonPath, fileZipPath, fs.files);
    var e := fs.Compress([jsonPath, fileZipPath], dir + "/" + "results.zip", None, OuterLevel);
    if e.Some? {
      assert false;
    }
  }

  /** No payload file: results.zip takes results.json alone. */
  method PackMetadataOnly(fs: FileSystem, config: Config, jobId: string)
    requires fs.Valid() && PlainName(jobId)
    requires JobDir(config, jobId) in fs.dirs && fs.NoSubdirs(JobDir(config, jobId))
    requires JsonPath(config, jobId) in fs.files && SamplePath(config, jobId) !in fs.files
    modifies fs
    ensures fs.Valid() && fs.dirs == old(fs.dirs)
    ensures fs.files == BasicArchives(old(fs.files), config, jobId)
  {
    var dir := Join(config.fetchDir, jobId);
    JoinPlain(config.fetchDir, jobId);
    JoinChild(dir, "results.json");
    JoinChild(dir, "results.zip");
    var jsonPath := Join(dir, "results.json");
    fs.CanCreateChild(dir, "results.zip");
    BasenameChild(dir, "results.json");
    ghost var files0 := fs.files;
    assert EntriesOf([jsonPath], files0) == [Entry("results.json", files0[jsonPath])] by {
      assert [jsonPath][..0] == [];
    }
    var e := fs.Compress([jsonPath], Join(dir, "results.zip"), None, OuterLevel);
    if e.Some? {
      assert false;
    }
    assert fs.files == files0[Join(dir, "results.zip") := Zip(Archive([Entry("results.json", files0[jsonPath])], None, OuterLevel))];
  }

  /** The comprehension of jobs.py:84: the picked names, as paths in the
      job directory, in listing order. */
  method Pick(dir: Path, listed: seq<string>) returns (list: seq<Path>)
    ensures list == CompressionList(dir, listed)
  {
    list := [];
    for i := 0 to |listed|
      invariant list == CompressionList(dir, listed[..i])
    {
      assert listed[..i + 1][..i] == listed[..i];
      if Packed(listed[i]) {
        list := list + [Join(dir, listed[i])];
      }
    }
    assert listed[..|listed|] == listed;
  }

  /** Every picked path names a file when every picked name does. */
  lemma PickedInFiles(dir: Path, names: seq<string>, files: map<Path, Content>)
    requires forall n :: n in names && Packed(n) ==> Join(dir, n) in files
    ensures forall p :: p in CompressionList(dir, names) ==> p in files
  {
    var list := CompressionList(dir, names);
    forall p | p in list
      ensures p in files
    {
      var i :| 0 <= i < |list| && list[i] == p;
      assert PickedNames(names)[i] in PickedNames(names);
    }
  }

  /** The two compressions of a website job (jobs.py:89-90). */
  method CompressWebsite(fs: FileSystem, config: Config, jobId: string, remoteId: string, ghost names: seq<string>,
                         list: seq<Path>)
    returns (r: Result<Path, JobError>)
    requires fs.Valid() && PlainName(jobId)
    requires JobDir(config, jobId) in fs.dirs && fs.NoSubdirs(JobDir(config, jobId))
    requires JsonPath(config, jobId) in fs.files
    requires forall p :: p in CompressionList(JobDir(config, jobId), names) ==> p in fs.files
    requires list == CompressionList(JobDir(config, jobId), names) + [JsonPath(config, jobId), FileZipPath(config, jobId)]
    modifies fs
    ensures fs.Valid() && fs.dirs == old(fs.dirs)
    ensures fs.files == WebsiteArchives(old(fs.files), config, jobId, remoteId, names)
    ensures r == if Join(JobDir(config, jobId), remoteId) in old(fs.files) then Ok(ResultsZipPath(config, jobId))
                 else Err(Os(NoSuchFile(Join(JobDir(config, jobId), remoteId))))
  {
    var dir := Join(config.fetchDir, jobId);
    JoinPlain(config.fetchDir, jobId);
    JoinChild(dir, "file.zip");
    JoinChild(dir, "results.zip");
    var src := Join(dir, remoteId);
    var fileZipPath := Join(dir, "file.zip");
    fs.CanCreateChild(dir, "file.zip");
    fs.CanCreateChild(dir, "results.zip");
    ghost var files0 := fs.files;
    var e := fs.Compress([src], fileZipPath, Some(Password), InnerLevel);
    if e.Some? {
      assert e.value == NoSuchFile(src);
      return Err(Os(e.value));
    }
    assert EntriesOf([src], files0) == [Entry(Basename(src), files0[src])];
    ghost var withInner := files0[fileZipPath := InnerArchive(Basename(src), files0[src])];
    assert fs.files == withInner;
    var e2 := fs.Compress(list, Join(dir, "results.zip"), None, OuterLevel);
    if e2.Some? {
      assert false;
    }
    r := Ok(Join(dir, "results.zip"));
  }

  /** The packaging step of a website job: the listing is taken after
      results.json is written; `info` is what fetch_website returned. */
  method PackageWebsite(fs: FileSystem, config: Config, jobId: string, info: Option<Record>)
    returns (r: Result<Path, JobError>, ghost names: seq<string>)
    requires fs.Valid() && IsUuid(jobId)
    requires JobDir(config, jobId) in fs.dirs && fs.NoSubdirs(JobDir(config, jobId))
    requires JsonPath(config, jobId) in fs.files
    modifies fs
    ensures fs.Valid() && fs.dirs == old(fs.dirs)
    ensures Listing(names, JobDir(config, jobId), old(fs.dirs), old(fs.files))
    ensures info.None? ==> r == Err(NoMetadata) && fs.files == old(fs.files)
    ensures info.Some? ==>
      && fs.files == WebsiteArchives(old(fs.files), config, jobId, info.value.remoteJobId, names)
      && r == if Join(JobDir(config, jobId), info.value.remoteJobId) in old(fs.files)
              then Ok(ResultsZipPath(config, jobId))
              else Err(Os(NoSuchFile(Join(JobDir(config, jobId), info.value.remoteJobId))))
  {
    var dir := Join(config.fetchDir, jobId);
    fs.ChildrenAreFiles(dir);
    var listed := fs.ListDir(dir);
    names := listed;
    var list := Pick(dir, listed);
    list := list + [Join(dir, "results.json")];
    list := list + [Join(dir, "file.zip")];
    if fs.Exists(dir) {
      if info.None? {
        return Err(NoMetadata), names;
      }
      forall n | n in listed && Packed(n)
        ensures Join(dir, n) in fs.files
      {
        JoinChild(dir, n);
      }
      PickedInFiles(dir, listed, fs.files);
      UuidAlphabet(jobId);
      r := CompressWebsite(fs, config, jobId, info.value.remoteJobId, names, list);
    } else {
      // the fallback of jobs.py:92 cannot run: the job directory exists
      assert false;
    }
  }

  // ---------------------------------------------------------------------
  // run_job and get_job_results

  /** get_job_results: the outer archive of an earlier job, after checking
      that the job directory exists and then that the archive is a file. */
  function GetJobResults(fs: FileSystem, config: Config, jobId: string): (r: Result<Path, JobError>)
    reads fs
    ensures r == Err(JobDoesNotExist) <==> !fs.Exists(JobDir(config, jobId))
    ensures r == Err(ResultsNotThere) <==>
      fs.Exists(JobDir(config, jobId)) && ResultsZipPath(config, jobId) !in fs.files
    ensures r.Ok? ==> r.value == ResultsZipPath(config, jobId) && r.value in fs.files
  {
    var dir := Join(config.fetchDir, jobId);
    if !fs.Exists(dir) then Err(JobDoesNotExist)
    else if Join(dir, "results.zip") !in fs.files then Err(ResultsNotThere)
    else Ok(Join(dir, "results.zip"))
  }

  /** A basic job from the point where its directory exists (`dirs0`,
      `files0`): the payload written by fetch_basic, results.json holding the
      returned record, the archives, and the path of results.zip returned. */
  predicate BasicRun(dirs0: set<Path>, files0: map<Path, Content>, dirs: set<Path>, files: map<Path, Content>,
                     r: Result<Path, JobError>, config: Config, jobId: string, url: string, userAgent: string,
                     env: Environment)
  {
    var outcome := env.net(GetRequest(LStrip(url), userAgent));
    var record := BasicRecord(url, jobId, outcome, env.writeFault);
    var fetched := BasicFiles(files0, SamplePath(config, jobId), outcome, env.writeFault);
    && dirs == dirs0
    && files == BasicArchives(fetched[JsonPath(config, jobId) := Json(Some(record))], config, jobId)
    && r == Ok(ResultsZipPath(config, jobId))
  }

  /** A website job from the point where its directory exists. When fetch_website
      raises, the directory is removed if nothing was written into it and
      the exception re-raised; otherwise rmdir itself fails. When it
      returns None, results.json holds null and indexing the result fails.
      When it returns a record, results.json holds it, `names` is the
      listing taken afterwards and the archives are packed. */
  ghost predicate WebsiteRun(dirs0: set<Path>, files0: map<Path, Content>, dirs: set<Path>, files: map<Path, Content>,
                       r: Result<Path, JobError>, names: seq<string>, config: Config, jobId: string, url: string,
                       userAgent: string, env: Environment)
  {
    var dir := JobDir(config, jobId);
    var outcome := env.browser(GetRequest(LStrip(url), userAgent));
    var fetched := WebsiteFiles(files0, dir, env.sessionId, env.netloc, outcome, env.shot, env.fileFault);
    match WebsiteReturn(url, env.sessionId, outcome, env.fileFault)
    case Raised(e) =>
      && files == fetched
      && (if NoFileUnder(fetched, dir) then dirs == dirs0 - {dir} && r == Err(FetchFailed(e))
          else dirs == dirs0 && r == Err(Os(NotEmpty(dir))))
    case Returned(None) =>
      && dirs == dirs0
      && files == fetched[JsonPath(config, jobId) := Json(None)]
      && r == Err(NoMetadata)
    case Returned(Some(record)) =>
      var written := fetched[JsonPath(config, jobId) := Json(Some(record))];
      var src := Join(dir, record.remoteJobId);
      && dirs == dirs0
      && Listing(names, dir, dirs, written)
      && files == WebsiteArchives(written, config, jobId, record.remoteJobId, names)
      && r == if src in written then Ok(ResultsZipPath(config, jobId)) else Err(Os(NoSuchFile(src)))
  }

  /** The basic branch of run_job, once the job directory exists. */
  method RunBasic(fs: FileSystem, url: string, userAgent: string, config: Config, jobId: string, env: Environment)
    returns (r: Result<Path, JobError>)
    requires fs.Valid() && IsUuid(jobId)
    requires JobDir(config, jobId) in fs.dirs && fs.IsEmptyDir(JobDir(config, jobId))
    modifies fs
    ensures fs.Valid()
    ensures BasicRun(old(fs.dirs), old(fs.files), fs.dirs, fs.files, r, config, jobId, url, userAgent, env)
    ensures r.Ok? ==> GetJobResults(fs, config, jobId) == r
  {
    var dir := Join(config.fetchDir, jobId);
    UuidAlphabet(jobId);
    JoinPlain(config.fetchDir, jobId);
    JoinChild(dir, jobId);
    JoinChild(dir, "results.json");
    JoinChild(dir, "results.zip");
    fs.CanCreateChild(dir, jobId);
    var record := FetchBasic(fs, url, userAgent, Join(dir, jobId), jobId, env.net, env.writeFault);
    fs.CanCreateChild(dir, "results.json");
    fs.WriteFile(Join(dir, "results.json"), Json(Some(record)));
    PackageBasic(fs, config, jobId);
    r := Ok(Join(dir, "results.zip"));
  }

  /** The website branch of run_job, once the job directory exists. */
  method RunWebsite(fs: FileSystem, url: string, userAgent: string, config: Config, jobId: string,
                    env: Environment)
    returns (r: Result<Path, JobError>, ghost names: seq<string>)
    requires fs.Valid() && IsUuid(jobId) && IsUuid(env.sessionId) && '/' !in env.netloc
    requires JobDir(config, jobId) in fs.dirs && fs.IsEmptyDir(JobDir(config, jobId))
    modifies fs
    ensures fs.Valid()
    ensures WebsiteRun(old(fs.dirs), old(fs.files), fs.dirs, fs.files, r, names, config, jobId, url, userAgent, env)
    ensures r.Ok? ==> GetJobResults(fs, config, jobId) == r
  {
    names := [];
    var dir := Join(config.fetchDir, jobId);
    UuidAlphabet(jobId);
    UuidAlphabet(env.sessionId);
    JoinPlain(config.fetchDir, jobId);
    JoinChild(dir, "results.json");
    var ret := FetchWebsite(fs, url, userAgent, dir, env.sessionId, env.netloc, env.browser, env.shot, env.fileFault);
    match ret {
      case Raised(err) =>
        var e := fs.Rmdir(dir);
        if e.Some? {
          return Err(Os(e.value)), names;
        }
        return Err(FetchFailed(err)), names;
      case Returned(info) =>
        fs.CanCreateChild(dir, "results.json");
        fs.WriteFile(Join(dir, "results.json"), Json(info));
        r, names := PackageWebsite(fs, config, jobId, info);
    }
  }

  /** run_job. `jobId` is the fresh uuid4 of the job; `names` is the
      directory listing a website job packs from. */
  method RunJob(fs: FileSystem, args: map<string, string>, mode: Mode, config: Config, jobId: string,
                env: Environment)
    returns (r: Result<Path, JobError>, ghost names: seq<string>)
    requires fs.Valid() && IsUuid(jobId) && IsUuid(env.sessionId) && '/' !in env.netloc
    modifies fs
    ensures fs.Valid()
    ensures "url" !in args ==> r == Err(MissingUrl) && fs.dirs == old(fs.dirs) && fs.files == old(fs.files)
    ensures "url" in args && old(fs.MkdirError(JobDir(config, jobId))).Some? ==>
      && r == Err(Os(old(fs.MkdirError(JobDir(config, jobId))).value))
      && fs.dirs == old(fs.dirs) && fs.files == old(fs.files)
    ensures "url" in args && old(fs.MkdirError(JobDir(config, jobId))).None? && mode == Basic ==>
      BasicRun(old(fs.dirs) + {JobDir(config, jobId)}, old(fs.files), fs.dirs, fs.files, r, config, jobId, args["url"],
               UserAgent(args, config), env)
    ensures "url" in args && old(fs.MkdirError(JobDir(config, jobId))).None? && mode == Website ==>
      WebsiteRun(old(fs.dirs) + {JobDir(config, jobId)}, old(fs.files), fs.dirs, fs.files, r, names, config, jobId, args["url"],
                 UserAgent(args, config), env)
    ensures r.Ok? ==> GetJobResults(fs, config, jobId) == r
  {
    names := [];
    if "url" !in args {
      return Err(MissingUrl), names;
    }
    var userAgent;
    if "user-agent" !in args {
      userAgent := config.defaultUserAgent;
    } else {
      userAgent := args["user-agent"];
    }
    var dir := Join(config.fetchDir, jobId);
    var samplePath := Join(dir, jobId);
    UuidAlphabet(jobId);
    UuidAlphabet(env.sessionId);
    JoinPlain(config.fetchDir, jobId);
    JoinChild(dir, jobId);
    JoinChild(dir, "results.json");
    if fs.MkdirError(dir).None? {
      fs.FreshIsEmpty(dir);
    }
    var e := fs.Mkdir(dir);
    if e.Some? {
      return Err(Os(e.value)), names;
    }
    match mode {
      case Basic =>
        r := RunBasic(fs, args["url"], userAgent, config, jobId, env);
      case Website =>
        r, names := RunWebsite(fs, args["url"], userAgent, config, jobId, env);
    }
  }

  // ---------------------------------------------------------------------
  // Properties of the packaging

  /** The paths of a job directory named by a 36-character plain id: each is
      the directory, a separator and its name, and no two coincide. */
  lemma JobPaths(config: Config, jobId: string)
    requires PlainName(jobId) && |jobId| == 36
    ensures EntryPath(JobDir(config, jobId))
    ensures SamplePath(config, jobId) == JobDir(config, jobId) + "/" + jobId
    ensures JsonPath(config, jobId) == JobDir(config, jobId) + "/" + "results.json"
    ensures FileZipPath(config, jobId) == JobDir(config, jobId) + "/" + "file.zip"
    ensures ResultsZipPath(config, jobId) == JobDir(config, jobId) + "/" + "results.zip"
    ensures |{SamplePath(config, jobId), JsonPath(config, jobId), FileZipPath(config, jobId),
              ResultsZipPath(config, jobId)}| == 4
  {
    var dir := JobDir(config, jobId);
    JoinPlain(config.fetchDir, jobId);
    JoinChild(dir, jobId);
    JoinChild(dir, "results.json");
    JoinChild(dir, "file.zip");
    JoinChild(dir, "results.zip");
  }

  /** The website packaging picks every resource file and the screenshot. */
  lemma PackedFetched(k: nat, netloc: string)
    ensures Packed(ResourceName(k)) && Packed(netloc + ".png")
  {
    assert IsPrefix("resource", ResourceName(k));
    ContainsSuffix(netloc, ".png");
  }

  /** A name lacking a letter of "resource" and a letter of ".png" is not
      picked. */
  lemma NotPackedBy(n: string, c1: char, c2: char)
    requires c1 in "resource" && c1 !in n && c2 in ".png" && c2 !in n
    ensures !Packed(n)
  {
    NotContainsMissingChar(n, "resource", c1);
    NotContainsMissingChar(n, ".png", c2);
  }

  /** It never picks the page file, which a uuid names. */
  lemma UuidNotPacked(id: string)
    requires IsUuid(id)
    ensures !Packed(id)
  {
    UuidAlphabet(id);
    NotPackedBy(id, 'r', '.');
  }

  /** Nor results.json or either archive. */
  lemma FixedNameNotPacked(n: string)
    requires n in ["results.json", "file.zip", "results.zip"]
    ensures !Packed(n)
  {
    NotPackedBy(n, 'c', 'g');
  }

  /** The archives of a basic job: results.zip is unencrypted and starts
      with results.json; it holds a second entry, file.zip, exactly when the
      payload file exists, and file.zip then opens with "infected" (and only
      with it) to the payload under the job id. Nothing else changes. */
  lemma BasicArchivesContents(files: map<Path, Content>, config: Config, jobId: string)
    requires PlainName(jobId) && |jobId| == 36
    requires JsonPath(config, jobId) in files
    ensures var after := BasicArchives(files, config, jobId);
      && ResultsZipPath(config, jobId) in after && after[ResultsZipPath(config, jobId)].Zip?
      && var outer := after[ResultsZipPath(config, jobId)].archive;
      && Extract(outer, None) == Some(outer.entries)
      && |outer.entries| >= 1
      && outer.entries[0] == Entry("results.json", files[JsonPath(config, jobId)])
      && (|outer.entries| == 2 <==> SamplePath(config, jobId) in files)
      && (SamplePath(config, jobId) !in files ==> |outer.entries| == 1)
      && (SamplePath(config, jobId) in files ==>
            && outer.entries[1].name == "file.zip"
            && outer.entries[1].content == after[FileZipPath(config, jobId)]
            && outer.entries[1].content.Zip?
            && Extract(outer.entries[1].content.archive, Some(Password))
               == Some([Entry(jobId, files[SamplePath(config, jobId)])])
            && Extract(outer.entries[1].content.archive, None).None?)
      && after.Keys == files.Keys + {ResultsZipPath(config, jobId)}
                       + (if SamplePath(config, jobId) in files then {FileZipPath(config, jobId)} else {})
      && forall p :: p in files && p != ResultsZipPath(config, jobId) && p != FileZipPath(config, jobId) ==>
            after[p] == files[p]
  {
    JobPaths(config, jobId);
  }

  /** A basic job whose connection is refused: results.zip holds results.json
      alone, with the three base keys and connection_success False. */
  lemma BasicRunRefused(dirs0: set<Path>, files0: map<Path, Content>, dirs: set<Path>, files: map<Path, Content>,
                        r: Result<Path, JobError>, config: Config, jobId: string, url: string, userAgent: string,
                        env: Environment)
    requires PlainName(jobId) && |jobId| == 36 && NoFileUnder(files0, JobDir(config, jobId))
    requires env.net(GetRequest(LStrip(url), userAgent)) == ConnectionError
    requires BasicRun(dirs0, files0, dirs, files, r, config, jobId, url, userAgent, env)
    ensures r == Ok(ResultsZipPath(config, jobId)) && r.value in files
    ensures files[r.value] == Zip(Archive([Entry("results.json", Json(Some(
              Record(url, LStrip(url), jobId, Some(false), None, None, None, None, None, None))))], None, OuterLevel))
    ensures FileZipPath(config, jobId) !in files
  {
    JobPaths(config, jobId);
    var dir := JobDir(config, jobId);
    assert Under(SamplePath(config, jobId), dir) && Under(FileZipPath(config, jobId), dir);
    BasicConnectionError(url, jobId, files0, SamplePath(config, jobId), env.writeFault);
    var written := files0[JsonPath(config, jobId) := Json(Some(BasicRecord(url, jobId, ConnectionError, env.writeFault)))];
    BasicArchivesContents(written, config, jobId);
  }

  /** A basic job whose GET succeeds and whose payload is written whole:
      results.zip holds results.json (fetch_success and fetch_object_success
      True) and file.zip, which opens with "infected" to the body under the
      job id. */
  lemma BasicRunPayload(dirs0: set<Path>, files0: map<Path, Content>, dirs: set<Path>, files: map<Path, Content>,
                        r: Result<Path, JobError>, config: Config, jobId: string, url: string, userAgent: string,
                        env: Environment, resp: Response)
    requires PlainName(jobId) && |jobId| == 36 && NoFileUnder(files0, JobDir(config, jobId))
    requires env.net(GetRequest(LStrip(url), userAgent)) == Received(resp)
    requires !RaisesForStatus(resp.status) && env.writeFault == NoFault
    requires BasicRun(dirs0, files0, dirs, files, r, config, jobId, url, userAgent, env)
    ensures r == Ok(ResultsZipPath(config, jobId)) && r.value in files && files[r.value].Zip?
    ensures var outer := files[r.value].archive;
      && |outer.entries| == 2
      && outer.entries[0].name == "results.json"
      && outer.entries[0].content.Json? && outer.entries[0].content.record.Some?
      && outer.entries[0].content.record.value.fetchSuccess == Some(true)
      && outer.entries[0].content.record.value.fetchObjectSuccess == Some(true)
      && outer.entries[1].name == "file.zip" && outer.entries[1].content.Zip?
      && Extract(outer.entries[1].content.archive, Some(Password)) == Some([Entry(jobId, Raw(resp.body))])
  {
    JobPaths(config, jobId);
    var sample := SamplePath(config, jobId);
    BasicOkStatus(url, jobId, resp, env.writeFault);
    BasicOkPayload(files0, sample, resp, env.writeFault);
    var fetched := BasicFiles(files0, sample, Received(resp), env.writeFault);
    var written := fetched[JsonPath(config, jobId) := Json(Some(BasicRecord(url, jobId, Received(resp), env.writeFault)))];
    assert written[sample] == Raw(resp.body);
    BasicArchivesContents(written, config, jobId);
  }

  /** The archives of a website job whose page file exists: results.zip is
      unencrypted and ends with results.json and file.zip, which holds the
      page file under its name; before them come as many entries as the
      listing has picked names. */
  lemma WebsiteArchivesTail(written: map<Path, Content>, config: Config, jobId: string, remoteId: string,
                            names: seq<string>)
    requires PlainName(jobId) && |jobId| == 36 && PlainName(remoteId)
    requires JsonPath(config, jobId) in written && Join(JobDir(config, jobId), remoteId) in written
    requires forall n :: n in names ==> PlainName(n) && JobDir(config, jobId) + "/" + n in written
    ensures var after := WebsiteArchives(written, config, jobId, remoteId, names);
      && ResultsZipPath(config, jobId) in after && after[ResultsZipPath(config, jobId)].Zip?
      && var outer := after[ResultsZipPath(config, jobId)].archive;
      && outer.password.None?
      && |outer.entries| == |PickedNames(names)| + 2
      && outer.entries[|outer.entries| - 2] == Entry("results.json", written[JsonPath(config, jobId)])
      && outer.entries[|outer.entries| - 1]
         == Entry("file.zip", InnerArchive(remoteId, written[Join(JobDir(config, jobId), remoteId)]))
      && after[FileZipPath(config, jobId)] == outer.entries[|outer.entries| - 1].content
  {
    JobPaths(config, jobId);
    var dir := JobDir(config, jobId);
    JoinChild(dir, remoteId);
    BasenameChild(dir, remoteId);
    BasenameChild(dir, "results.json");
    BasenameChild(dir, "file.zip");
    PickedInFiles(dir, names, written);
  }

  /** The entries archived from the picked names of a listing of files are
      those names, in listing order, each with its file's content. */
  lemma PickedEntries(dir: Path, names: seq<string>, files: map<Path, Content>)
    requires EntryPath(dir)
    requires forall n :: n in names ==> PlainName(n) && dir + "/" + n in files
    ensures var e := EntriesOf(CompressionList(dir, names), files);
      && |e| == |PickedNames(names)|
      && forall i :: 0 <= i < |e| ==> e[i] == Entry(PickedNames(names)[i], files[dir + "/" + PickedNames(names)[i]])
  {
    var picked := PickedNames(names);
    var list := CompressionList(dir, names);
    forall i | 0 <= i < |picked|
      ensures list[i] == dir + "/" + picked[i] && Basename(list[i]) == picked[i]
    {
      assert picked[i] in picked;
      JoinChild(dir, picked[i]);
      BasenameChild(dir, picked[i]);
    }
  }

  /** No picked name is file.zip's. */
  lemma PickedNotFileZip(dir: Path, names: seq<string>)
    ensures forall i :: 0 <= i < |PickedNames(names)| ==> dir + "/" + PickedNames(names)[i] != dir + "/" + "file.zip"
  {
    FixedNameNotPacked("file.zip");
    var picked := PickedNames(names);
    forall i | 0 <= i < |picked|
      ensures dir + "/" + picked[i] != dir + "/" + "file.zip"
    {
      assert picked[i] in picked;
      if dir + "/" + picked[i] == dir + "/" + "file.zip" {
        ChildInjective(dir, picked[i], "file.zip");
      }
    }
  }

  /** The entries of results.zip before results.json are exactly the picked
      names of the listing, in listing order, each with its file's content. */
  lemma WebsiteArchivesPicked(written: map<Path, Content>, config: Config, jobId: string, remoteId: string,
                              names: seq<string>)
    requires PlainName(jobId) && |jobId| == 36 && PlainName(remoteId)
    requires JsonPath(config, jobId) in written && Join(JobDir(config, jobId), remoteId) in written
    requires forall n :: n in names ==> PlainName(n) && JobDir(config, jobId) + "/" + n in written
    ensures var after := WebsiteArchives(written, config, jobId, remoteId, names);
      && ResultsZipPath(config, jobId) in after && after[ResultsZipPath(config, jobId)].Zip?
      && var e := after[ResultsZipPath(config, jobId)].archive.entries;
      && var picked := PickedNames(names);
      && |picked| <= |e|
      && forall i :: 0 <= i < |picked| ==> e[i] == Entry(picked[i], written[JobDir(config, jobId) + "/" + picked[i]])
  {
    JobPaths(config, jobId);
    var dir := JobDir(config, jobId);
    var src := Join(dir, remoteId);
    JoinChild(dir, remoteId);
    var fileZip := FileZipPath(config, jobId);
    var withInner := written[fileZip := InnerArchive(Basename(src), written[src])];
    var front := CompressionList(dir, names);
    var list := front + [JsonPath(config, jobId), fileZip];
    PickedInFiles(dir, names, withInner);
    PickedEntries(dir, names, withInner);
    PickedNotFileZip(dir, names);
    assert forall p :: p in list ==> p in withInner;
    assert forall i :: 0 <= i < |front| ==> list[i] == front[i];
  }

  // ---------------------------------------------------------------------
  // Properties of whole website jobs

  /** A page came back and its file could be opened: results.zip ends with
      results.json, holding the record of the page, and file.zip, which
      holds the page file under the session id (empty when writing the
      page failed); before them come the picked names of the listing. */
  lemma WebsiteRunPage(dirs0: set<Path>, files0: map<Path, Content>, dirs: set<Path>, files: map<Path, Content>,
                       r: Result<Path, JobError>, names: seq<string>, config: Config, jobId: string, url: string,
                       userAgent: string, env: Environment, p: Page, rs: seq<Resource>, cookies: seq<string>)
    requires PlainName(jobId) && |jobId| == 36 && IsUuid(env.sessionId)
    requires env.browser(GetRequest(LStrip(url), userAgent)) == Opened(Some(p), rs, cookies)
    requires !PageUnopened(env.fileFault)
    requires WebsiteRun(dirs0, files0, dirs, files, r, names, config, jobId, url, userAgent, env)
    ensures r == Ok(ResultsZipPath(config, jobId)) && r.value in files && files[r.value].Zip?
    ensures var e := files[r.value].archive.entries;
      && |e| == |PickedNames(names)| + 2
      && e[|e| - 2] == Entry("results.json",
                             Json(WebsiteReturn(url, env.sessionId, Opened(Some(p), rs, cookies), env.fileFault).record))
      && e[|e| - 1] == Entry("file.zip", InnerArchive(env.sessionId, Raw(PageContent(p, env.fileFault))))
  {
    var dir := JobDir(config, jobId);
    var sid := env.sessionId;
    var outcome := Opened(Some(p), rs, cookies);
    JobPaths(config, jobId);
    UuidAlphabet(sid);
    WebsitePageRecord(url, sid, p, rs, cookies, env.fileFault);
    WebsitePageFiles(files0, dir, sid, env.netloc, p, rs, cookies, env.shot, env.fileFault);
    var record := WebsiteReturn(url, sid, outcome, env.fileFault).record.value;
    var fetched := WebsiteFiles(files0, dir, sid, env.netloc, outcome, env.shot, env.fileFault);
    var written := fetched[JsonPath(config, jobId) := Json(Some(record))];
    JoinChild(dir, sid);
    if dir + "/" + sid == dir + "/" + "results.json" {
      ChildInjective(dir, sid, "results.json");
    }
    assert written[Join(dir, sid)] == Raw(PageContent(p, env.fileFault));
    WebsiteArchivesTail(written, config, jobId, sid, names);
  }

  /** A resource file in a listed directory is picked. */
  lemma ResourcePicked(k: nat, dir: Path, names: seq<string>, dirs: set<Path>, files: map<Path, Content>)
    requires Listing(names, dir, dirs, files) && ResourcePath(dir, k) in files
    ensures ResourceName(k) in PickedNames(names)
  {
    var q := ResourcePath(dir, k);
    ResourceNamePlain(k);
    PackedFetched(k, "");
    assert q[|dir| + 1..] == ResourceName(k);
    ChildListed(q, dir, dirs, files);
  }

  /** ... and the file of every resource written before a failure is among
      the picked names. */
  lemma WebsiteRunPacksResources(dirs0: set<Path>, files0: map<Path, Content>, dirs: set<Path>,
                                 files: map<Path, Content>, r: Result<Path, JobError>, names: seq<string>,
                                 config: Config, jobId: string, url: string, userAgent: string, env: Environment,
                                 p: Page, rs: seq<Resource>, cookies: seq<string>)
    requires IsUuid(env.sessionId)
    requires env.browser(GetRequest(LStrip(url), userAgent)) == Opened(Some(p), rs, cookies)
    requires !PageFails(env.fileFault)
    requires WebsiteRun(dirs0, files0, dirs, files, r, names, config, jobId, url, userAgent, env)
    ensures forall i :: 0 <= i < ResourcesWritten(env.fileFault, |rs|) ==>
      ResourceName(FirstIndex(rs, rs[i])) in PickedNames(names)
  {
    var dir := JobDir(config, jobId);
    var sid := env.sessionId;
    var outcome := Opened(Some(p), rs, cookies);
    WebsitePageRecord(url, sid, p, rs, cookies, env.fileFault);
    WebsiteResourceFiles(files0, dir, sid, env.netloc, p, rs, cookies, env.shot, env.fileFault);
    var record := WebsiteReturn(url, sid, outcome, env.fileFault).record.value;
    var fetched := WebsiteFiles(files0, dir, sid, env.netloc, outcome, env.shot, env.fileFault);
    var written := fetched[JsonPath(config, jobId) := Json(Some(record))];
    forall i | 0 <= i < ResourcesWritten(env.fileFault, |rs|)
      ensures ResourceName(FirstIndex(rs, rs[i])) in PickedNames(names)
    {
      ResourcePicked(FirstIndex(rs, rs[i]), dir, names, dirs, written);
    }
  }

  /** A resource but no page: fetch_website raises after writing the
      screenshot and the empty page file. The job directory is removed, and
      the error passed on, exactly when neither was written; otherwise
      rmdir fails on the non-empty directory. */
  lemma WebsiteRunRollback(dirs0: set<Path>, files0: map<Path, Content>, dirs: set<Path>, files: map<Path, Content>,
                           r: Result<Path, JobError>, names: seq<string>, config: Config, jobId: string, url: string,
                           userAgent: string, env: Environment, rs: seq<Resource>, cookies: seq<string>)
    requires IsUuid(env.sessionId) && NoFileUnder(files0, JobDir(config, jobId))
    requires env.browser(GetRequest(LStrip(url), userAgent)) == Opened(None, rs, cookies) && |rs| > 0
    requires WebsiteRun(dirs0, files0, dirs, files, r, names, config, jobId, url, userAgent, env)
    ensures PageUnopened(env.fileFault) && env.shot.None? ==>
      r == Err(FetchFailed(PageIsNone)) && dirs == dirs0 - {JobDir(config, jobId)} && files == files0
    ensures !(PageUnopened(env.fileFault) && env.shot.None?) ==>
      r == Err(Os(NotEmpty(JobDir(config, jobId)))) && dirs == dirs0
  {
    var dir := JobDir(config, jobId);
    var sid := env.sessionId;
    UuidAlphabet(sid);
    WebsitePageNone(url, files0, dir, sid, env.netloc, rs, cookies, env.shot, env.fileFault);
    var fetched := WebsiteFiles(files0, dir, sid, env.netloc, Opened(None, rs, cookies), env.shot, env.fileFault);
    if env.shot.Some? {
      assert Under(ShotPath(dir, env.netloc), dir);
    } else if !PageUnopened(env.fileFault) {
      assert Under(PagePath(dir, sid), dir);
    } else {
      assert fetched == files0;
    }
  }

  /** Neither a page nor a resource: fetch_website returns None, which is
      written to results.json as null; indexing it fails, so no archive is
      made and the directory stays. */
  lemma WebsiteRunNothing(dirs0: set<Path>, files0: map<Path, Content>, dirs: set<Path>, files: map<Path, Content>,
                          r: Result<Path, JobError>, names: seq<string>, config: Config, jobId: string, url: string,
                          userAgent: string, env: Environment, cookies: seq<string>)
    requires PlainName(jobId) && |jobId| == 36 && NoFileUnder(files0, JobDir(config, jobId))
    requires env.browser(GetRequest(LStrip(url), userAgent)) == Opened(None, [], cookies)
    requires WebsiteRun(dirs0, files0, dirs, files, r, names, config, jobId, url, userAgent, env)
    ensures r == Err(NoMetadata) && dirs == dirs0
    ensures files == files0[JsonPath(config, jobId) := Json(None)]
    ensures ResultsZipPath(config, jobId) !in files && FileZipPath(config, jobId) !in files
  {
    JobPaths(config, jobId);
    var dir := JobDir(config, jobId);
    assert Under(ResultsZipPath(config, jobId), dir) && Under(FileZipPath(config, jobId), dir);
  }

  /** The rendering engine fails: results.json records connection_success
      False, but no page file exists for the inner archive, so compressing
      it fails and no archive is made. */
  lemma WebsiteRunEngineError(dirs0: set<Path>, files0: map<Path, Content>, dirs: set<Path>, files: map<Path, Content>,
                              r: Result<Path, JobError>, names: seq<string>, config: Config, jobId: string,
                              url: string, userAgent: string, env: Environment)
    requires PlainName(jobId) && |jobId| == 36 && IsUuid(env.sessionId) && NoFileUnder(files0, JobDir(config, jobId))
    requires env.browser(GetRequest(LStrip(url), userAgent)) == EngineError
    requires WebsiteRun(dirs0, files0, dirs, files, r, names, config, jobId, url, userAgent, env)
    ensures r == Err(Os(NoSuchFile(JobDir(config, jobId) + "/" + env.sessionId))) && dirs == dirs0
    ensures files == files0[JsonPath(config, jobId) := Json(Some(
              Record(url, LStrip(url), env.sessionId, Some(false), None, None, None, None, None, None)))]
    ensures ResultsZipPath(config, jobId) !in files
  {
    JobPaths(config, jobId);
    var dir := JobDir(config, jobId);
    UuidAlphabet(env.sessionId);
    JoinChild(dir, env.sessionId);
    if dir + "/" + env.sessionId == dir + "/" + "results.json" {
      ChildInjective(dir, env.sessionId, "results.json");
    }
    assert Under(ResultsZipPath(config, jobId), dir) && Under(dir + "/" + env.sessionId, dir);
  }

  /** Before the packing of a job whose page file could not be opened, the
      job directory holds at most the screenshot and results.json: neither
      the page file nor an archive. */
  lemma UnopenedJobFiles(files0: map<Path, Content>, config: Config, jobId: string, sid: string, netloc: string,
                         shot: Option<Bytes>, record: Record)
    requires PlainName(jobId) && |jobId| == 36 && IsUuid(sid) && NoFileUnder(files0, JobDir(config, jobId))
    ensures var dir := JobDir(config, jobId);
      var withShot := if shot.Some? then files0[ShotPath(dir, netloc) := Raw(shot.value)] else files0;
      var written := withShot[JsonPath(config, jobId) := Json(Some(record))];
      && Join(dir, sid) == dir + "/" + sid
      && Join(dir, sid) !in written
      && ResultsZipPath(config, jobId) !in written && FileZipPath(config, jobId) !in written
  {
    JobPaths(config, jobId);
    var dir := JobDir(config, jobId);
    UuidAlphabet(sid);
    JoinChild(dir, sid);
    if dir + "/" + sid == dir + "/" + "results.json" {
      ChildInjective(dir, sid, "results.json");
    }
    ShotNotPage(dir, netloc, sid);
    var shotPath := ShotPath(dir, netloc);
    assert shotPath[|shotPath| - 1] == 'g';
    assert Under(dir + "/" + sid, dir);
    assert Under(ResultsZipPath(config, jobId), dir) && Under(FileZipPath(config, jobId), dir);
  }

  /** A page came back but its file could not be opened: the record is
      written, but compressing the missing page file fails and no archive
      is made. */
  lemma WebsiteRunPageUnopened(dirs0: set<Path>, files0: map<Path, Content>, dirs: set<Path>, files: map<Path, Content>,
                               r: Result<Path, JobError>, names: seq<string>, config: Config, jobId: string,
                               url: string, userAgent: string, env: Environment, p: Page, rs: seq<Resource>,
                               cookies: seq<string>)
    requires PlainName(jobId) && |jobId| == 36 && IsUuid(env.sessionId) && NoFileUnder(files0, JobDir(config, jobId))
    requires env.browser(GetRequest(LStrip(url), userAgent)) == Opened(Some(p), rs, cookies)
    requires PageUnopened(env.fileFault)
    requires WebsiteRun(dirs0, files0, dirs, files, r, names, config, jobId, url, userAgent, env)
    ensures r == Err(Os(NoSuchFile(JobDir(config, jobId) + "/" + env.sessionId))) && dirs == dirs0
    ensures JsonPath(config, jobId) in files && files[JsonPath(config, jobId)].Json?
    ensures var rec := files[JsonPath(config, jobId)].record;
      rec.Some? && rec.value.fetchObjectSuccess == Some(false) && rec.value.connectionSuccess == Some(true)
    ensures ResultsZipPath(config, jobId) !in files && FileZipPath(config, jobId) !in files
  {
    var dir := JobDir(config, jobId);
    var sid := env.sessionId;
    var outcome := Opened(Some(p), rs, cookies);
    WebsitePageRecord(url, sid, p, rs, cookies, env.fileFault);
    var record := WebsiteReturn(url, sid, outcome, env.fileFault).record.value;
    var withShot := if env.shot.Some? then files0[ShotPath(dir, env.netloc) := Raw(env.shot.value)] else files0;
    assert WebsiteFiles(files0, dir, sid, env.netloc, outcome, env.shot, env.fileFault) == withShot;
    UnopenedJobFiles(files0, config, jobId, sid, env.netloc, env.shot, record);
    assert files == withShot[JsonPath(config, jobId) := Json(Some(record))];
  }
}
