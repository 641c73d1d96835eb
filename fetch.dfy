/** The two fetch strategies of the relay (minion/Helpers/fetch.py): the
    basic fetch (one GET, body streamed to a file) and the website fetch
    (a rendered page, its resources and a screenshot). The network and the
    rendering engine are parameters that map the request actually made to
    its outcome; local write failures are a parameter too. */
module Fetch {
  import opened Common
  import opened Metadata
  import opened Files

  // ---------------------------------------------------------------------
  // URL normalisation

  /** Python 2.7's unicode.isspace on one character (the URL arrives as a
      unicode string from the decoded JSON request). */
  predicate IsSpace(c: char)
  {
    || c == ' '
    || '\t' <= c <= '\r'
    || '\U{1c}' <= c <= '\U{1f}'
    || c == '\U{85}' || c == '\U{a0}' || c == '\U{1680}' || c == '\U{180e}'
    || '\U{2000}' <= c <= '\U{200a}'
    || c == '\U{2028}' || c == '\U{2029}' || c == '\U{202f}' || c == '\U{205f}' || c == '\U{3000}'
  }

  /** str.lstrip(): the URL with its leading whitespace removed. */
  function LStrip(s: string): string
    decreases |s|
  {
    if |s| > 0 && IsSpace(s[0]) then LStrip(s[1..]) else s
  }

  /** The stripped URL is a suffix of the input that does not start with
      whitespace, and everything cut off was whitespace. */
  lemma {:induction false} LStripSuffix(s: string)
    ensures |LStrip(s)| <= |s| && LStrip(s) == s[|s| - |LStrip(s)|..]
    ensures LStrip(s) == [] || !IsSpace(LStrip(s)[0])
    ensures forall i :: 0 <= i < |s| - |LStrip(s)| ==> IsSpace(s[i])
    decreases |s|
  {
    if |s| > 0 && IsSpace(s[0]) {
      LStripSuffix(s[1..]);
      assert forall i :: 1 <= i < |s| ==> s[1..][i - 1] == s[i];
    }
  }

  /** Stripping a stripped URL changes nothing. */
  lemma LStripIdempotent(s: string)
    ensures LStrip(LStrip(s)) == LStrip(s)
  {
    LStripSuffix(s);
  }

  /** The request handed to the network or the rendering engine. */
  datatype GetRequest = GetRequest(url: string, userAgent: string)

  // ---------------------------------------------------------------------
  // Basic fetch

  const ChunkSize: nat := 100000

  /** A response of the redirect history: its status code and headers. */
  datatype PastResponse = PastResponse(status: int, headers: Headers)

  datatype Response = Response(
    status: int,
    headers: Headers,
    cookies: map<string, string>,
    history: seq<PastResponse>,
    body: Bytes)

  /** What `session.get` does: a connection error, another exception, or a
      response. */
  datatype BasicOutcome = ConnectionError | UnexpectedError | Received(response: Response)

  /** Where writing the body to the payload file fails, if anywhere: at the
      open, or at the write of chunk `chunk`. */
  datatype WriteFault = NoFault | OpenFails | WriteFailsAt(chunk: nat)

  /** raise_for_status raises on a client or server error status. */
  predicate RaisesForStatus(status: int)
  {
    400 <= status < 600
  }

  /** How many of `n` chunks reach the file before the fault strikes. */
  function ChunksWritten(n: nat, fault: WriteFault): nat
  {
    if fault.WriteFailsAt? && fault.chunk < n then fault.chunk else n
  }

  /** Writing `n` chunks hits the fault. */
  predicate WriteFails(n: nat, fault: WriteFault)
  {
    fault.OpenFails? || (fault.WriteFailsAt? && fault.chunk < n)
  }

  function Hop(p: PastResponse): Redirect
  {
    Redirect(p.headers, p.status)
  }

  /** The redirects entry: one {headers, response_code} item per hop. */
  function RedirectChain(history: seq<PastResponse>): seq<Redirect>
  {
    if history == [] then []
    else RedirectChain(history[..|history| - 1]) + [Hop(history[|history| - 1])]
  }

  /** The chain has one entry per hop of the history, in history order. */
  lemma {:induction false} RedirectChainHops(history: seq<PastResponse>)
    ensures |RedirectChain(history)| == |history|
    ensures forall i :: 0 <= i < |history| ==> RedirectChain(history)[i] == Hop(history[i])
  {
    if history != [] {
      RedirectChainHops(history[..|history| - 1]);
    }
  }

  /** The record fetch_basic returns for an outcome of the GET. */
  function BasicRecord(url: string, jobId: string, outcome: BasicOutcome, fault: WriteFault): Record
  {
    var base := Initial(url, LStrip(url), jobId);
    match outcome
    case ConnectionError => base.(connectionSuccess := Some(false))
    case UnexpectedError => base
    case Received(resp) =>
      var fetched :=
        if RaisesForStatus(resp.status) then base.(fetchSuccess := Some(false))
        else base.(fetchSuccess := Some(true),
                   fetchObjectSuccess := Some(!WriteFails(|Chunks(resp.body, ChunkSize)|, fault)));
      fetched.(connectionSuccess := Some(true),
               serverInfo := Some(resp.headers),
               responseCode := Some(resp.status),
               cookies := if |resp.cookies| > 0 then Some(CookieDict(resp.cookies)) else None,
               redirects := if |resp.history| > 0 then Some(RedirectChain(resp.history)) else None)
  }

  /** The files after fetch_basic: the payload file, holding the chunks
      written before any fault, when the status is not an error and the
      file could be opened. */
  function BasicFiles(files: map<Path, Content>, location: Path, outcome: BasicOutcome, fault: WriteFault)
    : map<Path, Content>
  {
    match outcome
    case Received(resp) =>
      var chunks := Chunks(resp.body, ChunkSize);
      if RaisesForStatus(resp.status) || fault.OpenFails? then files
      else files[location := Raw(Flatten(chunks[..ChunksWritten(|chunks|, fault)]))]
    case _ => files
  }

  /** The chunk loop: opens `location` and writes the chunks in order until
      the fault, if any. */
  method WriteChunks(fs: FileSystem, location: Path, chunks: seq<Bytes>, fault: WriteFault) returns (ok: bool)
    requires fs.Valid() && fs.CanCreate(location)
    modifies fs
    ensures fs.Valid() && fs.dirs == old(fs.dirs)
    ensures ok == !WriteFails(|chunks|, fault)
    ensures fs.files == if fault.OpenFails? then old(fs.files)
                        else old(fs.files)[location := Raw(Flatten(chunks[..ChunksWritten(|chunks|, fault)]))]
  {
    if fault.OpenFails? {
      return false;
    }
    fs.WriteFile(location, Raw([]));
    var i := 0;
    while i < |chunks|
      invariant 0 <= i <= ChunksWritten(|chunks|, fault)
      invariant fs.Valid() && fs.dirs == old(fs.dirs)
      invariant fs.files == old(fs.files)[location := Raw(Flatten(chunks[..i]))]
    {
      if fault == WriteFailsAt(i) {
        return false;
      }
      assert chunks[..i + 1][..i] == chunks[..i];
      fs.AppendBytes(location, chunks[i]);
      i := i + 1;
    }
    assert chunks[..i] == chunks;
    ok := true;
  }

  /** fetch_basic: strips the URL, performs the GET with the disguise user
      agent, writes the body of a non-error response to `location` and fills
      the record key by key. */
  method FetchBasic(fs: FileSystem, url: string, userAgent: string, location: Path, jobId: string,
                    net: GetRequest -> BasicOutcome, fault: WriteFault)
    returns (record: Record)
    requires fs.Valid() && fs.CanCreate(location)
    modifies fs
    ensures fs.Valid() && fs.dirs == old(fs.dirs)
    ensures record == BasicRecord(url, jobId, net(GetRequest(LStrip(url), userAgent)), fault)
    ensures fs.files == BasicFiles(old(fs.files), location, net(GetRequest(LStrip(url), userAgent)), fault)
  {
    var urlClean := LStrip(url);
    record := Initial(url, urlClean, jobId);
    var outcome := net(GetRequest(urlClean, userAgent));
    match outcome {
      case ConnectionError =>
        record := record.(connectionSuccess := Some(false));
      case UnexpectedError =>
      case Received(resp) =>
        if RaisesForStatus(resp.status) {
          record := record.(fetchSuccess := Some(false));
        } else {
          record := record.(fetchSuccess := Some(true));
          var ok := WriteChunks(fs, location, Chunks(resp.body, ChunkSize), fault);
          record := record.(fetchObjectSuccess := Some(ok));
        }
        // the finally block
        record := record.(connectionSuccess := Some(true));
        record := record.(serverInfo := Some(resp.headers));
        record := record.(responseCode := Some(resp.status));
        if |resp.cookies| > 0 {
          record := record.(cookies := Some(CookieDict(resp.cookies)));
        }
        if |resp.history| > 0 {
          var chain: seq<Redirect> := [];
          for i := 0 to |resp.history|
            invariant chain == RedirectChain(resp.history[..i])
          {
            assert resp.history[..i + 1][..i] == resp.history[..i];
            chain := chain + [Hop(resp.history[i])];
          }
          assert resp.history[..|resp.history|] == resp.history;
          record := record.(redirects := Some(chain));
        }
    }
  }

  // ---------------------------------------------------------------------
  // Properties of the basic fetch

  /** A connection error: the three base keys plus connection_success =
      False, and no file is written. */
  lemma BasicConnectionError(url: string, jobId: string, files: map<Path, Content>, location: Path,
                             fault: WriteFault)
    ensures BasicRecord(url, jobId, ConnectionError, fault)
         == Record(url, LStrip(url), jobId, Some(false), None, None, None, None, None, None)
    ensures BasicFiles(files, location, ConnectionError, fault) == files
  {
  }

  /** Any other exception of the GET: only the three base keys, and no file
      is written. */
  lemma BasicUnexpectedError(url: string, jobId: string, files: map<Path, Content>, location: Path,
                             fault: WriteFault)
    ensures BasicRecord(url, jobId, UnexpectedError, fault)
         == Record(url, LStrip(url), jobId, None, None, None, None, None, None, None)
    ensures BasicFiles(files, location, UnexpectedError, fault) == files
  {
  }

  /** A non-error status: fetch_success is True and fetch_object_success
      tells whether every write succeeded. */
  lemma BasicOkStatus(url: string, jobId: string, resp: Response, fault: WriteFault)
    requires !RaisesForStatus(resp.status)
    ensures var r := BasicRecord(url, jobId, Received(resp), fault);
      && r.fetchSuccess == Some(true)
      && r.fetchObjectSuccess == Some(!WriteFails(|Chunks(resp.body, ChunkSize)|, fault))
  {
  }

  /** A non-error status: the payload file holds a prefix of the body (the
      chunks written in order), the whole body when no write fails; nothing
      else is written, and nothing at all when the file cannot be opened. */
  lemma BasicOkPayload(files: map<Path, Content>, location: Path, resp: Response, fault: WriteFault)
    requires !RaisesForStatus(resp.status)
    ensures var after := BasicFiles(files, location, Received(resp), fault);
      && (fault.OpenFails? ==> after == files)
      && (!fault.OpenFails? ==>
            && after.Keys == files.Keys + {location}
            && (forall p :: p in files && p != location ==> after[p] == files[p])
            && after[location].Raw?
            && IsPrefix(after[location].data, resp.body))
      && (!WriteFails(|Chunks(resp.body, ChunkSize)|, fault) ==> after == files[location := Raw(resp.body)])
  {
    var chunks := Chunks(resp.body, ChunkSize);
    var k := ChunksWritten(|chunks|, fault);
    if !fault.OpenFails? {
      var written := Flatten(chunks[..k]);
      assert BasicFiles(files, location, Received(resp), fault) == files[location := Raw(written)];
      ChunksFlatten(resp.body, ChunkSize);
      FlattenSplit(chunks, k);
      assert resp.body == written + Flatten(chunks[k..]);
      assert resp.body[..|written|] == written;
      if !WriteFails(|chunks|, fault) {
        assert chunks[..k] == chunks;
      }
    }
  }

  /** An error status (raise_for_status raises): fetch_success is False,
      fetch_object_success is absent and no file is written. */
  lemma BasicErrorStatus(url: string, jobId: string, files: map<Path, Content>, location: Path,
                         resp: Response, fault: WriteFault)
    requires RaisesForStatus(resp.status)
    ensures var r := BasicRecord(url, jobId, Received(resp), fault);
      r.fetchSuccess == Some(false) && r.fetchObjectSuccess.None?
    ensures BasicFiles(files, location, Received(resp), fault) == files
  {
  }

  /** Whatever the status, a received response sets connection_success, the
      headers and the status code; the cookies key appears exactly when the
      jar is non-empty, and the redirects key exactly when there is a
      history, with one entry per hop in order. */
  lemma BasicReceived(url: string, jobId: string, resp: Response, fault: WriteFault)
    ensures var r := BasicRecord(url, jobId, Received(resp), fault);
      && r.requestedUrl == url && r.actualUrl == LStrip(url) && r.remoteJobId == jobId
      && r.connectionSuccess == Some(true)
      && r.serverInfo == Some(resp.headers)
      && r.responseCode == Some(resp.status)
      && (r.cookies.Some? <==> |resp.cookies| > 0)
      && (r.cookies.Some? ==> r.cookies.value == CookieDict(resp.cookies))
      && (r.redirects.Some? <==> |resp.history| > 0)
      && (r.redirects.Some? ==>
            && |r.redirects.value| == |resp.history|
            && forall i :: 0 <= i < |resp.history| ==>
                 r.redirects.value[i] == Redirect(resp.history[i].headers, resp.history[i].status))
  {
    RedirectChainHops(resp.history);
  }

  // ---------------------------------------------------------------------
  // Website fetch

  datatype Page = Page(content: Bytes, headers: Headers, httpStatus: int)

  /** A resource the engine collected; `id` stands for the object's
      identity, which list.index compares. */
  datatype Resource = Resource(id: nat, url: string, content: Bytes)

  /** What `session.open` does: the engine times out or fails, another
      exception is raised, or it returns the page (possibly None), its
      resources and the session's cookies afterwards. */
  datatype WebsiteOutcome =
    | EngineError
    | OpenRaised
    | Opened(page: Option<Page>, resources: seq<Resource>, cookies: seq<string>)

  /** The exception fetch_website lets escape: reading the headers of a page
      that is None. */
  datatype FetchError = PageIsNone

  /** How fetch_website ends: it returns a record, returns None, or raises. */
  datatype FetchReturn = Returned(record: Option<Record>) | Raised(error: FetchError)

  const ErrorStatuses: set<int> := {400, 404, 403, 401}

  /** list.index: the first position of an equal element. */
  function FirstIndex(rs: seq<Resource>, r: Resource): (k: nat)
    requires r in rs
    ensures k < |rs| && rs[k] == r
  {
    if rs[0] == r then 0 else 1 + FirstIndex(rs[1..], r)
  }

  /** No position before FirstIndex holds an equal resource. */
  lemma {:induction false} FirstIndexIsFirst(rs: seq<Resource>, r: Resource, j: nat)
    requires r in rs
    requires j < FirstIndex(rs, r)
    ensures rs[j] != r
  {
    if j > 0 {
      FirstIndexIsFirst(rs[1..], r, j - 1);
    }
  }

  function PagePath(dir: Path, sessionId: string): Path
  {
    dir + "/" + sessionId
  }

  function ShotPath(dir: Path, netloc: string): Path
  {
    dir + "/" + netloc + ".png"
  }

  function ResourceName(k: nat): string
  {
    "resource" + DecimalString(k)
  }

  function ResourcePath(dir: Path, k: nat): Path
  {
    dir + "/" + ResourceName(k)
  }

  lemma ResourceNamePlain(k: nat)
    ensures PlainName(ResourceName(k))
  {
    var s := ResourceName(k);
    forall i | 0 <= i < |s|
      ensures s[i] != '/'
    {
      if i >= 8 {
        assert s[i] == DecimalString(k)[i - 8];
      }
    }
  }

  /** Resource files of different positions have different names. */
  lemma ResourcePathInjective(dir: Path, j: nat, k: nat)
    requires ResourcePath(dir, j) == ResourcePath(dir, k)
    ensures j == k
  {
    var pre := dir + "/resource";
    assert ResourcePath(dir, j) == pre + DecimalString(j);
    assert ResourcePath(dir, k) == pre + DecimalString(k);
    assert DecimalString(j) == ResourcePath(dir, j)[|pre|..];
    assert DecimalString(k) == ResourcePath(dir, k)[|pre|..];
    DecimalInjective(j, k);
  }

  /** The files after writing the first `m` resources in order: each to
      `resource<k>`, k the first index of the same resource. */
  function ResourceWrites(files: map<Path, Content>, dir: Path, rs: seq<Resource>, m: nat): map<Path, Content>
    requires m <= |rs|
  {
    if m == 0 then files
    else ResourceWrites(files, dir, rs, m - 1)[ResourcePath(dir, FirstIndex(rs, rs[m - 1])) := Raw(rs[m - 1].content)]
  }

  /** The file operation of fetch_website's write block that raises, if any:
      file 0 is the page, file i + 1 the i-th resource. open(..., 'w') and
      write are separate steps, so a failed open leaves no file, while a
      failed write leaves the file that the open just created or truncated
      empty. */
  datatype FileFault = OpenFailsOn(file: nat) | WriteFailsOn(file: nat)

  /** How many resources are written in full before the fault strikes. */
  function ResourcesWritten(fault: Option<FileFault>, n: nat): nat
  {
    if fault.Some? && 1 <= fault.value.file <= n then fault.value.file - 1 else n
  }

  /** Some file operation of the page and its `n` resources fails. */
  predicate FileWriteFails(fault: Option<FileFault>, n: nat)
  {
    fault.Some? && fault.value.file <= n
  }

  /** The page file is not opened. */
  predicate PageUnopened(fault: Option<FileFault>)
  {
    fault == Some(OpenFailsOn(0))
  }

  /** The page file is not written: its open or its write fails. */
  predicate PageFails(fault: Option<FileFault>)
  {
    fault.Some? && fault.value.file == 0
  }

  /** A resource file is opened but its write fails. */
  predicate ResourceTruncated(fault: Option<FileFault>, n: nat)
  {
    fault.Some? && fault.value.WriteFailsOn? && 1 <= fault.value.file <= n
  }

  /** What the page file holds once it was opened. */
  function PageContent(p: Page, fault: Option<FileFault>): Bytes
  {
    if fault == Some(WriteFailsOn(0)) then [] else p.content
  }

  /** The files after the resource loop: the resources before the fault
      written, and the file of the resource whose write fails left empty. */
  function ResourceFiles(files: map<Path, Content>, dir: Path, rs: seq<Resource>, fault: Option<FileFault>)
    : map<Path, Content>
  {
    var m := ResourcesWritten(fault, |rs|);
    var written := ResourceWrites(files, dir, rs, m);
    if ResourceTruncated(fault, |rs|) then written[ResourcePath(dir, FirstIndex(rs, rs[m])) := Raw([])] else written
  }

  /** The files after the write block of fetch_website: the page file
      (created empty before page.content is read) and the resource files. */
  function PageWrites(files: map<Path, Content>, dir: Path, sessionId: string, page: Option<Page>,
                      rs: seq<Resource>, fault: Option<FileFault>): map<Path, Content>
  {
    if PageUnopened(fault) then files
    else if page.None? || fault == Some(WriteFailsOn(0)) then files[PagePath(dir, sessionId) := Raw([])]
    else ResourceFiles(files[PagePath(dir, sessionId) := Raw(page.value.content)], dir, rs, fault)
  }

  /** The files after fetch_website: the screenshot when the capture
      succeeds, then the page and resource files, and nothing at all when
      neither a page nor a resource came back. */
  function WebsiteFiles(files: map<Path, Content>, dir: Path, sessionId: string, netloc: string,
                        outcome: WebsiteOutcome, shot: Option<Bytes>, fault: Option<FileFault>): map<Path, Content>
  {
    match outcome
    case Opened(page, rs, _) =>
      if page.None? && |rs| == 0 then files
      else
        var withShot := if shot.Some? then files[ShotPath(dir, netloc) := Raw(shot.value)] else files;
        PageWrites(withShot, dir, sessionId, page, rs, fault)
    case _ => files
  }

  /** How fetch_website ends for an outcome of session.open. */
  function WebsiteReturn(url: string, sessionId: string, outcome: WebsiteOutcome, fault: Option<FileFault>): FetchReturn
  {
    var base := Initial(url, LStrip(url), sessionId);
    match outcome
    case EngineError => Returned(Some(base.(connectionSuccess := Some(false))))
    case OpenRaised => Returned(Some(base))
    case Opened(page, rs, cookies) =>
      if page.None? && |rs| == 0 then Returned(None)
      else if page.None? then Raised(PageIsNone)
      else
        var p := page.value;
        Returned(Some(base.(
          fetchObjectSuccess := Some(!FileWriteFails(fault, |rs|)),
          connectionSuccess := Some(true),
          serverInfo := Some(p.headers),
          responseCode := Some(p.httpStatus),
          fetchSuccess := if p.httpStatus in ErrorStatuses then Some(false) else None,
          cookies := if |cookies| > 0 then Some(CookieList(cookies)) else None)))
  }

  /** The try block of fetch_website: the page file, then every resource. */
  method WritePageFiles(fs: FileSystem, dir: Path, sessionId: string, page: Option<Page>, rs: seq<Resource>,
                        fault: Option<FileFault>)
    returns (ok: bool)
    requires fs.Valid() && dir in fs.dirs && fs.NoSubdirs(dir) && PlainName(sessionId)
    modifies fs
    ensures fs.Valid() && fs.dirs == old(fs.dirs)
    ensures ok == (page.Some? && !FileWriteFails(fault, |rs|))
    ensures fs.files == PageWrites(old(fs.files), dir, sessionId, page, rs, fault)
  {
    if fault == Some(OpenFailsOn(0)) {
      return false;
    }
    fs.CanCreateChild(dir, sessionId);
    fs.WriteFile(PagePath(dir, sessionId), Raw([]));
    if page.None? || fault == Some(WriteFailsOn(0)) {
      return false;
    }
    fs.WriteFile(PagePath(dir, sessionId), Raw(page.value.content));
    assert fs.files == old(fs.files)[PagePath(dir, sessionId) := Raw(page.value.content)];
    ok := WriteResources(fs, dir, rs, fault);
  }

  /** The loop of fetch_website writing each resource to the file named
      after the first resource equal to it, until the fault strikes. */
  method WriteResources(fs: FileSystem, dir: Path, rs: seq<Resource>, fault: Option<FileFault>)
    returns (ok: bool)
    requires fs.Valid() && dir in fs.dirs && fs.NoSubdirs(dir)
    requires !PageFails(fault)
    modifies fs
    ensures fs.Valid() && fs.dirs == old(fs.dirs)
    ensures ok == !FileWriteFails(fault, |rs|)
    ensures fs.files == ResourceFiles(old(fs.files), dir, rs, fault)
  {
    var i := 0;
    while i < |rs|
      invariant 0 <= i <= ResourcesWritten(fault, |rs|)
      invariant fs.Valid() && fs.dirs == old(fs.dirs)
      invariant fs.files == ResourceWrites(old(fs.files), dir, rs, i)
    {
      FaultAtResource(fault, |rs|, i);
      var written := WriteResource(fs, dir, rs, i, fault);
      if !written {
        return false;
      }
      i := i + 1;
    }
    FaultAtResource(fault, |rs|, i);
    ok := true;
  }

  /** One pass of the resource loop: opens the file named after the first
      resource equal to the i-th one, then writes the i-th content to it.
      A failed open leaves the files as they were; a failed write leaves
      that file empty. */
  method WriteResource(fs: FileSystem, dir: Path, rs: seq<Resource>, i: nat, fault: Option<FileFault>)
    returns (ok: bool)
    requires fs.Valid() && dir in fs.dirs && fs.NoSubdirs(dir) && i < |rs|
    modifies fs
    ensures fs.Valid() && fs.dirs == old(fs.dirs)
    ensures ok == (fault != Some(OpenFailsOn(i + 1)) && fault != Some(WriteFailsOn(i + 1)))
    ensures fs.files == if fault == Some(OpenFailsOn(i + 1)) then old(fs.files)
                        else old(fs.files)[ResourcePath(dir, FirstIndex(rs, rs[i])) :=
                               if fault == Some(WriteFailsOn(i + 1)) then Raw([]) else Raw(rs[i].content)]
  {
    if fault == Some(OpenFailsOn(i + 1)) {
      return false;
    }
    var k := FirstIndex(rs, rs[i]);
    ResourceNamePlain(k);
    fs.CanCreateChild(dir, ResourceName(k));
    fs.WriteFile(ResourcePath(dir, k), Raw([]));
    if fault == Some(WriteFailsOn(i + 1)) {
      return false;
    }
    fs.WriteFile(ResourcePath(dir, k), Raw(rs[i].content));
    assert fs.files == old(fs.files)[ResourcePath(dir, k) := Raw(rs[i].content)];
    ok := true;
  }

  /** What the fault means for the resource loop at position `i`: a fault
      on file i + 1 ends it there, and any other lets it go on. */
  lemma FaultAtResource(fault: Option<FileFault>, n: nat, i: nat)
    requires i <= ResourcesWritten(fault, n) && !PageFails(fault)
    ensures i == n ==> ResourcesWritten(fault, n) == n && !ResourceTruncated(fault, n)
    ensures i < n && fault == Some(OpenFailsOn(i + 1)) ==>
              ResourcesWritten(fault, n) == i && !ResourceTruncated(fault, n) && FileWriteFails(fault, n)
    ensures i < n && fault == Some(WriteFailsOn(i + 1)) ==>
              ResourcesWritten(fault, n) == i && ResourceTruncated(fault, n) && FileWriteFails(fault, n)
    ensures i < n && fault != Some(OpenFailsOn(i + 1)) && fault != Some(WriteFailsOn(i + 1)) ==>
              i + 1 <= ResourcesWritten(fault, n)
  {
  }

  /** fetch_website: strips the URL, opens it in a rendering session, and
      for a page or some resources captures a screenshot, writes the page
      and resource files and fills the record in the finally block. */
  method FetchWebsite(fs: FileSystem, url: string, userAgent: string, dir: Path, sessionId: string,
                      netloc: string, browser: GetRequest -> WebsiteOutcome, shot: Option<Bytes>,
                      fault: Option<FileFault>)
    returns (r: FetchReturn)
    requires fs.Valid() && dir in fs.dirs && fs.NoSubdirs(dir) && PlainName(sessionId) && '/' !in netloc
    modifies fs
    ensures fs.Valid() && fs.dirs == old(fs.dirs)
    ensures r == WebsiteReturn(url, sessionId, browser(GetRequest(LStrip(url), userAgent)), fault)
    ensures fs.files == WebsiteFiles(old(fs.files), dir, sessionId, netloc,
                                     browser(GetRequest(LStrip(url), userAgent)), shot, fault)
  {
    var urlClean := LStrip(url);
    var record := Initial(url, urlClean, sessionId);
    var outcome := browser(GetRequest(urlClean, userAgent));
    match outcome {
      case EngineError =>
        record := record.(connectionSuccess := Some(false));
        return Returned(Some(record));
      case OpenRaised =>
        return Returned(Some(record));
      case Opened(page, rs, cookies) =>
        if page.None? && |rs| == 0 {
          record := record.(connectionSuccess := Some(false));
          return Returned(None);
        }
        if shot.Some? {
          assert ShotPath(dir, netloc) == dir + "/" + (netloc + ".png");
          fs.CanCreateChild(dir, netloc + ".png");
          fs.WriteFile(ShotPath(dir, netloc), Raw(shot.value));
        }
        var ok := WritePageFiles(fs, dir, sessionId, page, rs, fault);
        record := record.(fetchObjectSuccess := Some(ok));
        // the finally block
        if page.None? {
          return Raised(PageIsNone);
        }
        record := record.(connectionSuccess := Some(true));
        record := record.(serverInfo := Some(page.value.headers));
        record := record.(responseCode := Some(page.value.httpStatus));
        if page.value.httpStatus in ErrorStatuses {
          record := record.(fetchSuccess := Some(false));
        }
        if |cookies| > 0 {
          record := record.(cookies := Some(CookieList(cookies)));
        }
        return Returned(Some(record));
    }
  }

  // ---------------------------------------------------------------------
  // Properties of the website fetch

  /** The engine times out or fails: the base keys plus
      connection_success = False, and no file is written. */
  lemma WebsiteEngineError(url: string, sessionId: string, files: map<Path, Content>, dir: Path, netloc: string,
                           shot: Option<Bytes>, fault: Option<FileFault>)
    ensures WebsiteReturn(url, sessionId, EngineError, fault)
         == Returned(Some(Record(url, LStrip(url), sessionId, Some(false), None, None, None, None, None, None)))
    ensures WebsiteFiles(files, dir, sessionId, netloc, EngineError, shot, fault) == files
  {
  }

  /** Any other exception of session.open: only the base keys, and no file
      is written. */
  lemma WebsiteOpenRaised(url: string, sessionId: string, files: map<Path, Content>, dir: Path, netloc: string,
                          shot: Option<Bytes>, fault: Option<FileFault>)
    ensures WebsiteReturn(url, sessionId, OpenRaised, fault)
         == Returned(Some(Record(url, LStrip(url), sessionId, None, None, None, None, None, None, None)))
    ensures WebsiteFiles(files, dir, sessionId, netloc, OpenRaised, shot, fault) == files
  {
  }

  /** Neither a page nor a resource: the function falls off its end and
      returns None, and no file is written, not even the screenshot. */
  lemma WebsiteNothingFetched(url: string, sessionId: string, files: map<Path, Content>, dir: Path, netloc: string,
                              cookies: seq<string>, shot: Option<Bytes>, fault: Option<FileFault>)
    ensures WebsiteReturn(url, sessionId, Opened(None, [], cookies), fault) == Returned(None)
    ensures WebsiteFiles(files, dir, sessionId, netloc, Opened(None, [], cookies), shot, fault) == files
  {
  }

  /** A page: connection_success, the headers and the status are recorded,
      fetch_success is False exactly for the statuses 400, 401, 403 and 404
      and absent otherwise, fetch_object_success tells whether every file
      was written, and the cookies key appears exactly when the session has
      cookies. */
  lemma WebsitePageRecord(url: string, sessionId: string, p: Page, rs: seq<Resource>, cookies: seq<string>,
                          fault: Option<FileFault>)
    ensures WebsiteReturn(url, sessionId, Opened(Some(p), rs, cookies), fault).Returned?
    ensures WebsiteReturn(url, sessionId, Opened(Some(p), rs, cookies), fault).record.Some?
    ensures var r := WebsiteReturn(url, sessionId, Opened(Some(p), rs, cookies), fault).record.value;
      && r.requestedUrl == url && r.actualUrl == LStrip(url) && r.remoteJobId == sessionId
      && r.connectionSuccess == Some(true)
      && r.serverInfo == Some(p.headers)
      && r.responseCode == Some(p.httpStatus)
      && (r.fetchSuccess.Some? <==> p.httpStatus in {400, 401, 403, 404})
      && (r.fetchSuccess.Some? ==> r.fetchSuccess.value == false)
      && r.fetchObjectSuccess == Some(!FileWriteFails(fault, |rs|))
      && (r.cookies.Some? <==> |cookies| > 0)
      && (r.cookies.Some? ==> r.cookies.value == CookieList(cookies))
      && r.redirects.None?
  {
  }

  /** A session id is never the name of a resource file: the name starts
      with 'r', which is no hexadecimal digit. */
  lemma PageNotResource(dir: Path, sessionId: string, k: nat)
    requires IsUuid(sessionId)
    ensures PagePath(dir, sessionId) != ResourcePath(dir, k)
  {
    var n := |dir| + 1;
    assert PagePath(dir, sessionId)[n] == sessionId[0];
    assert ResourcePath(dir, k)[n] == 'r';
  }

  /** The screenshot ends in 'g', a resource file in a digit. */
  lemma ShotNotResource(dir: Path, netloc: string, k: nat)
    ensures ShotPath(dir, netloc) != ResourcePath(dir, k)
  {
    var d := DecimalString(k);
    assert ResourcePath(dir, k)[|ResourcePath(dir, k)| - 1] == d[|d| - 1];
  }

  /** The screenshot ends in 'g', a session id in a hexadecimal digit. */
  lemma ShotNotPage(dir: Path, netloc: string, sessionId: string)
    requires IsUuid(sessionId)
    ensures ShotPath(dir, netloc) != PagePath(dir, sessionId)
  {
    assert PagePath(dir, sessionId)[|PagePath(dir, sessionId)| - 1] == sessionId[35];
  }

  /** After writing the first `m` resources, the file of each of them holds
      its content: a later resource with the same file name is the same
      resource. */
  lemma {:induction false} ResourceWritesAt(files: map<Path, Content>, dir: Path, rs: seq<Resource>, m: nat, i: nat)
    requires i < m <= |rs|
    ensures ResourcePath(dir, FirstIndex(rs, rs[i])) in ResourceWrites(files, dir, rs, m)
    ensures ResourceWrites(files, dir, rs, m)[ResourcePath(dir, FirstIndex(rs, rs[i]))] == Raw(rs[i].content)
  {
    if i < m - 1 {
      ResourceWritesAt(files, dir, rs, m - 1, i);
      var here := ResourcePath(dir, FirstIndex(rs, rs[m - 1]));
      if here == ResourcePath(dir, FirstIndex(rs, rs[i])) {
        ResourcePathInjective(dir, FirstIndex(rs, rs[m - 1]), FirstIndex(rs, rs[i]));
      }
    }
  }

  /** Writing resources touches nothing but resource files. */
  lemma {:induction false} ResourceWritesElsewhere(files: map<Path, Content>, dir: Path, rs: seq<Resource>, m: nat,
                                                   p: Path)
    requires m <= |rs|
    requires forall k :: 0 <= k < |rs| ==> p != ResourcePath(dir, k)
    ensures p in ResourceWrites(files, dir, rs, m) <==> p in files
    ensures p in files ==> ResourceWrites(files, dir, rs, m)[p] == files[p]
  {
    if m > 0 {
      ResourceWritesElsewhere(files, dir, rs, m - 1, p);
    }
  }

  /** The only new paths are resource files of positions in the list. */
  lemma {:induction false} ResourceWritesKeys(files: map<Path, Content>, dir: Path, rs: seq<Resource>, m: nat)
    requires m <= |rs|
    ensures ResourceWrites(files, dir, rs, m).Keys <= files.Keys + (set k | 0 <= k < |rs| :: ResourcePath(dir, k))
  {
    if m > 0 {
      ResourceWritesKeys(files, dir, rs, m - 1);
    }
  }

  /** Two positions of the list share a resource file exactly when they
      hold equal resources. */
  lemma SameResourceFile(dir: Path, rs: seq<Resource>, i: nat, j: nat)
    requires i < |rs| && j < |rs|
    ensures ResourcePath(dir, FirstIndex(rs, rs[i])) == ResourcePath(dir, FirstIndex(rs, rs[j])) <==> rs[i] == rs[j]
  {
    if ResourcePath(dir, FirstIndex(rs, rs[i])) == ResourcePath(dir, FirstIndex(rs, rs[j])) {
      ResourcePathInjective(dir, FirstIndex(rs, rs[i]), FirstIndex(rs, rs[j]));
    }
  }

  /** After the resource loop, the file of each resource written before the
      fault holds its content, unless the failing write truncated that same
      file, which is then empty. */
  lemma ResourceFilesAt(files: map<Path, Content>, dir: Path, rs: seq<Resource>, fault: Option<FileFault>, i: nat)
    requires i < ResourcesWritten(fault, |rs|)
    ensures var after := ResourceFiles(files, dir, rs, fault);
      && ResourcePath(dir, FirstIndex(rs, rs[i])) in after
      && after[ResourcePath(dir, FirstIndex(rs, rs[i]))]
         == if ResourceTruncated(fault, |rs|) && rs[i] == rs[ResourcesWritten(fault, |rs|)] then Raw([]) else Raw(rs[i].content)
  {
    var m := ResourcesWritten(fault, |rs|);
    ResourceWritesAt(files, dir, rs, m, i);
    if ResourceTruncated(fault, |rs|) {
      TruncatedAt(ResourceWrites(files, dir, rs, m), dir, rs, i, m);
    }
  }

  /** Emptying the file of position `j` empties that of `i` exactly when
      the two hold equal resources. */
  lemma TruncatedAt(written: map<Path, Content>, dir: Path, rs: seq<Resource>, i: nat, j: nat)
    requires i < j < |rs|
    requires ResourcePath(dir, FirstIndex(rs, rs[i])) in written
    ensures var after := written[ResourcePath(dir, FirstIndex(rs, rs[j])) := Raw([])];
      after[ResourcePath(dir, FirstIndex(rs, rs[i]))]
      == if rs[i] == rs[j] then Raw([]) else written[ResourcePath(dir, FirstIndex(rs, rs[i]))]
  {
    SameResourceFile(dir, rs, i, j);
  }

  /** The file of the resource whose write fails after its open is empty. */
  lemma ResourceFilesEmpty(files: map<Path, Content>, dir: Path, rs: seq<Resource>, fault: Option<FileFault>)
    requires ResourceTruncated(fault, |rs|)
    ensures var after := ResourceFiles(files, dir, rs, fault);
      && ResourcePath(dir, FirstIndex(rs, rs[ResourcesWritten(fault, |rs|)])) in after
      && after[ResourcePath(dir, FirstIndex(rs, rs[ResourcesWritten(fault, |rs|)]))] == Raw([])
  {
  }

  /** The resource loop touches nothing but resource files, and creates
      only resource files of positions in the list. */
  lemma ResourceFilesFrame(files: map<Path, Content>, dir: Path, rs: seq<Resource>, fault: Option<FileFault>)
    ensures var after := ResourceFiles(files, dir, rs, fault);
      && after.Keys <= files.Keys + (set k | 0 <= k < |rs| :: ResourcePath(dir, k))
      && forall q :: (forall k :: 0 <= k < |rs| ==> q != ResourcePath(dir, k)) ==>
           (q in after <==> q in files) && (q in files ==> after[q] == files[q])
  {
    var m := ResourcesWritten(fault, |rs|);
    ResourceWritesKeys(files, dir, rs, m);
    forall q | forall k :: 0 <= k < |rs| ==> q != ResourcePath(dir, k)
      ensures var after := ResourceFiles(files, dir, rs, fault);
        (q in after <==> q in files) && (q in files ==> after[q] == files[q])
    {
      ResourceWritesElsewhere(files, dir, rs, m, q);
    }
  }

  /** A page: the screenshot (when captured) is there; the page file is
      there unless its open fails, holding the page, or nothing when its
      write fails; a failed open writes nothing more; only the screenshot,
      the page file and resource files can be new, and every other path is
      left as it was. */
  lemma WebsitePageFiles(files: map<Path, Content>, dir: Path, sessionId: string, netloc: string, p: Page,
                         rs: seq<Resource>, cookies: seq<string>, shot: Option<Bytes>, fault: Option<FileFault>)
    requires IsUuid(sessionId)
    ensures var after := WebsiteFiles(files, dir, sessionId, netloc, Opened(Some(p), rs, cookies), shot, fault);
      && (shot.Some? ==> ShotPath(dir, netloc) in after && after[ShotPath(dir, netloc)] == Raw(shot.value))
      && (PageUnopened(fault) ==> after == if shot.Some? then files[ShotPath(dir, netloc) := Raw(shot.value)] else files)
      && (!PageUnopened(fault) ==>
            PagePath(dir, sessionId) in after && after[PagePath(dir, sessionId)] == Raw(PageContent(p, fault)))
      && after.Keys <= files.Keys + {ShotPath(dir, netloc), PagePath(dir, sessionId)}
                       + (set k | 0 <= k < |rs| :: ResourcePath(dir, k))
      && forall q :: q in files && q != ShotPath(dir, netloc) && q != PagePath(dir, sessionId)
                     && (forall k :: 0 <= k < |rs| ==> q != ResourcePath(dir, k)) ==>
            q in after && after[q] == files[q]
  {
    var page := PagePath(dir, sessionId);
    var shotPath := ShotPath(dir, netloc);
    var withShot := if shot.Some? then files[shotPath := Raw(shot.value)] else files;
    ShotNotPage(dir, netloc, sessionId);
    if !PageFails(fault) {
      var start := withShot[page := Raw(p.content)];
      assert WebsiteFiles(files, dir, sessionId, netloc, Opened(Some(p), rs, cookies), shot, fault)
          == ResourceFiles(start, dir, rs, fault);
      forall k | 0 <= k < |rs|
        ensures page != ResourcePath(dir, k) && shotPath != ResourcePath(dir, k)
      {
        PageNotResource(dir, sessionId, k);
        ShotNotResource(dir, netloc, k);
      }
      ResourceFilesFrame(start, dir, rs, fault);
    }
  }

  /** A page whose file was written: each resource written before a failure
      holds its content, the resource whose write fails after its open is
      left empty (and so is any earlier resource equal to it, which shares
      its file), and when no operation fails every resource has its file. */
  lemma WebsiteResourceFiles(files: map<Path, Content>, dir: Path, sessionId: string, netloc: string, p: Page,
                             rs: seq<Resource>, cookies: seq<string>, shot: Option<Bytes>, fault: Option<FileFault>)
    requires !PageFails(fault)
    ensures var after := WebsiteFiles(files, dir, sessionId, netloc, Opened(Some(p), rs, cookies), shot, fault);
      && (forall i :: 0 <= i < ResourcesWritten(fault, |rs|) ==>
            ResourcePath(dir, FirstIndex(rs, rs[i])) in after
            && after[ResourcePath(dir, FirstIndex(rs, rs[i]))]
               == if ResourceTruncated(fault, |rs|) && rs[i] == rs[ResourcesWritten(fault, |rs|)] then Raw([])
                  else Raw(rs[i].content))
      && (ResourceTruncated(fault, |rs|) ==>
            ResourcePath(dir, FirstIndex(rs, rs[ResourcesWritten(fault, |rs|)])) in after
            && after[ResourcePath(dir, FirstIndex(rs, rs[ResourcesWritten(fault, |rs|)]))] == Raw([]))
      && (!FileWriteFails(fault, |rs|) ==> ResourcesWritten(fault, |rs|) == |rs|)
  {
    var withShot := if shot.Some? then files[ShotPath(dir, netloc) := Raw(shot.value)] else files;
    var start := withShot[PagePath(dir, sessionId) := Raw(p.content)];
    var after := ResourceFiles(start, dir, rs, fault);
    assert WebsiteFiles(files, dir, sessionId, netloc, Opened(Some(p), rs, cookies), shot, fault) == after by {
      assert withShot == (if shot.Some? then files[ShotPath(dir, netloc) := Raw(shot.value)] else files);
    }
    if ResourceTruncated(fault, |rs|) {
      ResourceFilesEmpty(start, dir, rs, fault);
    }
    ResourceFilesAll(start, dir, rs, fault);
  }

  /** ResourceFilesAt for every resource written before the fault. */
  lemma ResourceFilesAll(files: map<Path, Content>, dir: Path, rs: seq<Resource>, fault: Option<FileFault>)
    ensures var after := ResourceFiles(files, dir, rs, fault);
      forall i :: 0 <= i < ResourcesWritten(fault, |rs|) ==>
        ResourcePath(dir, FirstIndex(rs, rs[i])) in after
        && after[ResourcePath(dir, FirstIndex(rs, rs[i]))]
           == if ResourceTruncated(fault, |rs|) && rs[i] == rs[ResourcesWritten(fault, |rs|)] then Raw([])
              else Raw(rs[i].content)
  {
    forall i | 0 <= i < ResourcesWritten(fault, |rs|)
      ensures var after := ResourceFiles(files, dir, rs, fault);
        ResourcePath(dir, FirstIndex(rs, rs[i])) in after
        && after[ResourcePath(dir, FirstIndex(rs, rs[i]))]
           == if ResourceTruncated(fault, |rs|) && rs[i] == rs[ResourcesWritten(fault, |rs|)] then Raw([])
              else Raw(rs[i].content)
    {
      ResourceFilesAt(files, dir, rs, fault, i);
    }
  }

  /** A resource but no page: the screenshot is still attempted and the page
      file is created empty, no resource file is written, and the function
      raises. */
  lemma WebsitePageNone(url: string, files: map<Path, Content>, dir: Path, sessionId: string, netloc: string,
                        rs: seq<Resource>, cookies: seq<string>, shot: Option<Bytes>, fault: Option<FileFault>)
    requires |rs| > 0 && IsUuid(sessionId)
    ensures WebsiteReturn(url, sessionId, Opened(None, rs, cookies), fault) == Raised(PageIsNone)
    ensures var after := WebsiteFiles(files, dir, sessionId, netloc, Opened(None, rs, cookies), shot, fault);
      && (shot.Some? ==> ShotPath(dir, netloc) in after && after[ShotPath(dir, netloc)] == Raw(shot.value))
      && (!PageUnopened(fault) ==> PagePath(dir, sessionId) in after && after[PagePath(dir, sessionId)] == Raw([]))
      && after.Keys <= files.Keys + {ShotPath(dir, netloc), PagePath(dir, sessionId)}
      && forall q :: q in files && q != ShotPath(dir, netloc) && q != PagePath(dir, sessionId) ==>
            q in after && after[q] == files[q]
  {
    ShotNotPage(dir, netloc, sessionId);
  }
}
