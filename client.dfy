/** The client library (pyminion/pyminion/pyminion.py): a PyMinion holds the
    base URL of a relay; request_url names a local result directory after
    the time, the host and a sanitised prefix of the URL path, refuses a
    name that exists already, posts the request and unpacks the archive the
    relay answers with. The connection test, the POST, the clock, urlparse
    and the zip reader are parameters. */
module Client {
  import opened Common
  import opened Files

  // ---------------------------------------------------------------------
  // The base URL

  /** protocol://host/ or protocol://host:port/, and in website mode the
      /website endpoint without a trailing slash. */
  function BaseUrl(protocol: string, hostname: string, port: Option<nat>, website: bool): string
  {
    var root := protocol + "://" + hostname + (if port.Some? then ":" + DecimalString(port.value) else "");
    if website then root + "/website" else root + "/"
  }

  /** The base URL starts with the scheme and the host, then the port when
      one is given; it ends in '/' exactly outside website mode. */
  lemma BaseUrlShape(protocol: string, hostname: string, port: Option<nat>, website: bool)
    ensures var u := BaseUrl(protocol, hostname, port, website);
      && IsPrefix(protocol + "://" + hostname, u)
      && (port.None? ==> u == protocol + "://" + hostname + (if website then "/website" else "/"))
      && (port.Some? ==> u == protocol + "://" + hostname + ":" + DecimalString(port.value)
                              + (if website then "/website" else "/"))
      && (u[|u| - 1] == '/' <==> !website)
  {
    var root := protocol + "://" + hostname + (if port.Some? then ":" + DecimalString(port.value) else "");
    assert IsPrefix(protocol + "://" + hostname, root);
    var u := BaseUrl(protocol, hostname, port, website);
    assert u[..|root|] == root;
  }

  /** The exceptions of the client. */
  datatype ClientError =
    | BadProtocol                       // ValueError: neither http nor https
    | Unresponsive(status: Option<int>) // the connection test raised (None) or did not answer 200
    | AlreadyFetched                    // UserWarning: the result directory exists
    | Os(os: OsError)                   // os.mkdir of the result directory failed
    | Failed                            // anything raised inside the POST block

  predicate ValidProtocol(protocol: string)
  {
    protocol == "https" || protocol == "http"
  }

  /** How the constructor fails, in order: the protocol check, then the GET
      of the plain base URL (`probe` gives its status, None when it raises). */
  function ConnectError(protocol: string, hostname: string, port: Option<nat>, probe: string -> Option<int>)
    : (e: Option<ClientError>)
    ensures !ValidProtocol(protocol) ==> e == Some(BadProtocol)
    ensures ValidProtocol(protocol) ==>
      (e.None? <==> probe(BaseUrl(protocol, hostname, port, false)) == Some(200))
    ensures e.Some? && ValidProtocol(protocol) ==>
      e.value == Unresponsive(probe(BaseUrl(protocol, hostname, port, false)))
  {
    if !ValidProtocol(protocol) then Some(BadProtocol)
    else
      var status := probe(BaseUrl(protocol, hostname, port, false));
      if status == Some(200) then None else Some(Unresponsive(status))
  }

  // ---------------------------------------------------------------------
  // The result directory name

  const Denylist: set<char> := {'<', '>', ':', '"', '/', '\\', '|', '!', '?', '*', '%', '=', '&', ';', ',', '[', ']'}

  /** The first eight characters of the URL path. */
  function PathPrefix(path: string): (p: string)
    ensures |p| == if |path| < 8 then |path| else 8
    ensures IsPrefix(p, path)
  {
    if |path| <= 8 then path else path[..8]
  }

  /** `s` with every character of `cs` removed. */
  function StripAll(s: string, cs: set<char>): (r: string)
    ensures |r| <= |s|
  {
    if s == [] then [] else (if s[0] in cs then [] else [s[0]]) + StripAll(s[1..], cs)
  }

  /** Exactly the characters of `s` outside `cs` remain. */
  lemma {:induction false} StripMembers(s: string, cs: set<char>)
    ensures forall c :: c in StripAll(s, cs) <==> c in s && c !in cs
    decreases |s|
  {
    if s != [] {
      StripMembers(s[1..], cs);
      assert forall c :: c in s <==> c == s[0] || c in s[1..];
    }
  }

  /** Removing no character changes nothing. */
  lemma {:induction false} StripNothing(s: string)
    ensures StripAll(s, {}) == s
    decreases |s|
  {
    if s != [] {
      StripNothing(s[1..]);
    }
  }

  /** The path prefix with every denylisted character removed. */
  function Sanitized(s: string): string
  {
    StripAll(s, Denylist)
  }

  /** `t` is `s` with some characters left out. */
  predicate Subsequence(t: string, s: string)
    decreases |s|
  {
    if t == [] then true
    else if s == [] then false
    else (t[0] == s[0] && Subsequence(t[1..], s[1..])) || Subsequence(t, s[1..])
  }

  /** Removing one set of characters and then another removes both. */
  lemma {:induction false} StripTwice(s: string, a: set<char>, b: set<char>)
    ensures StripAll(StripAll(s, a), b) == StripAll(s, a + b)
    decreases |s|
  {
    if s != [] {
      StripTwice(s[1..], a, b);
      var once := StripAll(s, a);
      if s[0] !in a {
        assert once[0] == s[0] && once[1..] == StripAll(s[1..], a);
      } else {
        assert once == StripAll(s[1..], a);
      }
    }
  }

  /** Only the removed characters that occur in `s` matter. */
  lemma {:induction false} StripSame(s: string, a: set<char>, b: set<char>)
    requires forall c :: c in s ==> (c in a <==> c in b)
    ensures StripAll(s, a) == StripAll(s, b)
    decreases |s|
  {
    if s != [] {
      assert s[0] in s;
      assert forall c :: c in s[1..] ==> c in s;
      StripSame(s[1..], a, b);
    }
  }

  /** What is left after removing characters is a subsequence. */
  lemma {:induction false} StripSubsequence(s: string, cs: set<char>)
    ensures Subsequence(StripAll(s, cs), s)
    decreases |s|
  {
    if s != [] {
      StripSubsequence(s[1..], cs);
      var r := StripAll(s, cs);
      if s[0] !in cs {
        assert r[0] == s[0] && r[1..] == StripAll(s[1..], cs);
      } else {
        assert r == StripAll(s[1..], cs);
      }
    }
  }

  /** The sanitised prefix is at most eight characters long, free of
      denylisted characters, a subsequence of the path prefix, and
      sanitising it again changes nothing. */
  lemma SanitizedPrefix(path: string)
    ensures var p := Sanitized(PathPrefix(path));
      && |p| <= 8
      && (forall c :: c in p ==> c !in Denylist)
      && Subsequence(p, PathPrefix(path))
      && Sanitized(p) == p
  {
    var pre := PathPrefix(path);
    StripMembers(pre, Denylist);
    StripSubsequence(pre, Denylist);
    StripTwice(pre, Denylist, Denylist);
    assert Denylist + Denylist == Denylist;
  }

  /** The loop of request_url over the characters of the prefix, removing
      every occurrence of each denylisted one it meets. */
  method SanitizePrefix(prefix: string) returns (s: string)
    ensures s == Sanitized(prefix)
  {
    s := prefix;
    ghost var seen: set<char> := {};
    StripNothing(prefix);
    for i := 0 to |prefix|
      invariant s == StripAll(prefix, seen)
      invariant seen <= Denylist
      invariant forall j :: 0 <= j < i && prefix[j] in Denylist ==> prefix[j] in seen
    {
      var c := prefix[i];
      if c in Denylist {
        StripTwice(prefix, seen, {c});
        s := StripAll(s, {c});
        seen := seen + {c};
      }
    }
    forall c | c in prefix
      ensures c in seen <==> c in Denylist
    {
      var j :| 0 <= j < |prefix| && prefix[j] == c;
    }
    StripSame(prefix, seen, Denylist);
  }

  /** datetime.now() down to the second. */
  datatype Stamp = Stamp(year: nat, month: nat, day: nat, hour: nat, minute: nat, second: nat)

  /** "boomerang_results_Y_M_D_h_m_s" (unpadded), the netloc and the
      sanitised prefix. */
  function ResultName(stamp: Stamp, netloc: string, prefix: string): string
  {
    "boomerang_results_" + DecimalString(stamp.year) + "_" + DecimalString(stamp.month)
      + "_" + DecimalString(stamp.day) + "_" + DecimalString(stamp.hour)
      + "_" + DecimalString(stamp.minute) + "_" + DecimalString(stamp.second) + netloc + prefix
  }

  /** The result directory of a request: the name joined onto the return
      path. */
  function ResultPath(returnPath: Path, stamp: Stamp, netloc: string, path: string): Path
  {
    Join(returnPath, ResultName(stamp, netloc, Sanitized(PathPrefix(path))))
  }

  /** The name is a single path component when the netloc holds no '/', so
      the result directory lies directly in the return path. */
  lemma ResultNamePlain(returnPath: Path, stamp: Stamp, netloc: string, path: string)
    requires '/' !in netloc
    ensures PlainName(ResultName(stamp, netloc, Sanitized(PathPrefix(path))))
    ensures EntryPath(ResultPath(returnPath, stamp, netloc, path))
  {
    var prefix := Sanitized(PathPrefix(path));
    var name := ResultName(stamp, netloc, prefix);
    StripMembers(PathPrefix(path), Denylist);
    assert '/' !in DecimalString(stamp.year) && '/' !in DecimalString(stamp.month)
        && '/' !in DecimalString(stamp.day) && '/' !in DecimalString(stamp.hour)
        && '/' !in DecimalString(stamp.minute) && '/' !in DecimalString(stamp.second);
    assert '/' !in prefix;
    assert '/' !in name;
    JoinPlain(returnPath, name);
  }

  /** The seconds field is followed by the host with no separator, so a
      request to 11.2.3.4 one second past the minute and one to 1.2.3.4
      eleven seconds past it get the same name, and the later one is
      refused as a repeat. */
  lemma ResultNameAmbiguous(stamp: Stamp, prefix: string)
    ensures ResultName(stamp.(second := 1), "11.2.3.4", prefix)
         == ResultName(stamp.(second := 11), "1.2.3.4", prefix)
  {
    assert DecimalString(1) == "1";
    assert DecimalString(11) == "11";
    var head := "boomerang_results_" + DecimalString(stamp.year) + "_" + DecimalString(stamp.month)
      + "_" + DecimalString(stamp.day) + "_" + DecimalString(stamp.hour)
      + "_" + DecimalString(stamp.minute) + "_";
    assert "1" + "11.2.3.4" == "11" + "1.2.3.4";
    assert head + "1" + "11.2.3.4" + prefix == head + "11" + "1.2.3.4" + prefix;
  }

  // ---------------------------------------------------------------------
  // Delivering the relay's answer

  /** What the POST to the relay gives: it raises, or it answers with a
      status and a body. */
  datatype PostOutcome = PostFailed | Replied(status: int, body: Bytes)

  /** The JSON payload of the request: the URL, and the user agent when one
      is given. */
  function Payload(url: string, userAgent: Option<string>): (p: map<string, string>)
    ensures "url" in p && p["url"] == url
    ensures "user-agent" in p <==> userAgent.Some?
    ensures userAgent.Some? ==> p["user-agent"] == userAgent.value
    ensures p.Keys <= {"url", "user-agent"}
  {
    var base := map["url" := url];
    if userAgent.Some? then base["user-agent" := userAgent.value] else base
  }

  /** A member name extractall writes directly into the target directory. */
  predicate Extractable(n: string)
  {
    PlainName(n) && n != "." && n != ".."
  }

  /** The zip reader only ever lists members that are flat names; nested
      members are not part of this model. */
  ghost predicate FlatReader(unzip: Bytes -> Option<seq<Entry>>)
  {
    forall b :: unzip(b).Some? ==> forall i :: 0 <= i < |unzip(b).value| ==> Extractable(unzip(b).value[i].name)
  }

  /** extractall: every member written into `dir` in archive order, a later
      member with the same name replacing an earlier one. */
  function ExtractInto(files: map<Path, Content>, dir: Path, es: seq<Entry>): (r: map<Path, Content>)
    ensures files.Keys <= r.Keys
  {
    if es == [] then files
    else
      var last := es[|es| - 1];
      ExtractInto(files, dir, es[..|es| - 1])[Join(dir, last.name) := last.content]
  }

  /** The last member under a name decides what is extracted under it. */
  lemma {:induction false} ExtractAt(files: map<Path, Content>, dir: Path, es: seq<Entry>, i: nat)
    requires i < |es|
    requires forall j :: i < j < |es| ==> Join(dir, es[j].name) != Join(dir, es[i].name)
    ensures Join(dir, es[i].name) in ExtractInto(files, dir, es)
    ensures ExtractInto(files, dir, es)[Join(dir, es[i].name)] == es[i].content
    decreases |es|
  {
    if i < |es| - 1 {
      ExtractAt(files, dir, es[..|es| - 1], i);
    }
  }

  /** A path no member is extracted to keeps its old state. */
  lemma {:induction false} ExtractElsewhere(files: map<Path, Content>, dir: Path, es: seq<Entry>, k: Path)
    requires forall j :: 0 <= j < |es| ==> Join(dir, es[j].name) != k
    ensures k in ExtractInto(files, dir, es) <==> k in files
    ensures k in files ==> ExtractInto(files, dir, es)[k] == files[k]
    decreases |es|
  {
    if es != [] {
      ExtractElsewhere(files, dir, es[..|es| - 1], k);
    }
  }

  /** The path the answer is first written to. */
  function ZipPath(dir: Path): Path
  {
    Join(dir, "res.zip")
  }

  /** The files after the answer has been handled: nothing is written unless
      the relay answers 200; then the body is written to res.zip, and when
      it reads as an archive its members are extracted and res.zip removed,
      unless `removeFails` says that os.remove raised, which is ignored. */
  function DeliveryFiles(files: map<Path, Content>, dir: Path, outcome: PostOutcome,
                         unzip: Bytes -> Option<seq<Entry>>, removeFails: bool): map<Path, Content>
  {
    if outcome.PostFailed? || outcome.status != 200 then files
    else
      var written := files[ZipPath(dir) := Raw(outcome.body)];
      match unzip(outcome.body)
      case None => written
      case Some(es) =>
        var extracted := ExtractInto(written, dir, es);
        if removeFails then extracted else extracted - {ZipPath(dir)}
  }

  /** What request_url returns or raises once the directory exists. */
  function DeliveryResult(dir: Path, outcome: PostOutcome, unzip: Bytes -> Option<seq<Entry>>)
    : (r: Result<Option<Path>, ClientError>)
    ensures r.Ok? && r.value.Some? <==> outcome.Replied? && outcome.status == 200 && unzip(outcome.body).Some?
    ensures r.Ok? && r.value.Some? ==> r.value.value == dir
    ensures r == Ok(None) <==> outcome.Replied? && outcome.status != 200
  {
    if outcome.PostFailed? then Err(Failed)
    else if outcome.status != 200 then Ok(None)
    else if unzip(outcome.body).None? then Err(Failed)
    else Ok(Some(dir))
  }

  /** A 200 answer that reads as an archive of distinct members leaves
      exactly those members in the directory, with their contents; res.zip
      is gone, or still holds the body when removing it failed, and the
      path is returned either way; every other path is untouched. */
  lemma DeliveryOk(files: map<Path, Content>, dir: Path, body: Bytes,
                   unzip: Bytes -> Option<seq<Entry>>, es: seq<Entry>, removeFails: bool)
    requires unzip(body) == Some(es)
    requires forall i :: 0 <= i < |es| ==> Extractable(es[i].name) && es[i].name != "res.zip"
    requires forall i, j :: 0 <= i < j < |es| ==> es[i].name != es[j].name
    requires EntryPath(dir)
    ensures DeliveryResult(dir, Replied(200, body), unzip) == Ok(Some(dir))
    ensures var after := DeliveryFiles(files, dir, Replied(200, body), unzip, removeFails);
      && (ZipPath(dir) in after <==> removeFails)
      && (removeFails ==> after[ZipPath(dir)] == Raw(body))
      && (forall i :: 0 <= i < |es| ==> dir + "/" + es[i].name in after && after[dir + "/" + es[i].name] == es[i].content)
      && (forall k :: k !in ChildPaths(dir, es) && k != ZipPath(dir) ==>
            (k in after <==> k in files) && (k in files ==> after[k] == files[k]))
  {
    var written := files[ZipPath(dir) := Raw(body)];
    forall i | 0 <= i < |es|
      ensures Join(dir, es[i].name) == dir + "/" + es[i].name && ZipPath(dir) != dir + "/" + es[i].name
    {
      JoinChild(dir, es[i].name);
      JoinChild(dir, "res.zip");
      if dir + "/" + es[i].name == dir + "/" + "res.zip" {
        ChildInjective(dir, es[i].name, "res.zip");
      }
    }
    forall i | 0 <= i < |es|
      ensures dir + "/" + es[i].name in ExtractInto(written, dir, es)
      ensures ExtractInto(written, dir, es)[dir + "/" + es[i].name] == es[i].content
    {
      forall j | i < j < |es|
        ensures Join(dir, es[j].name) != Join(dir, es[i].name)
      {
        if dir + "/" + es[j].name == dir + "/" + es[i].name {
          ChildInjective(dir, es[j].name, es[i].name);
        }
      }
      ExtractAt(written, dir, es, i);
    }
    forall k | k !in ChildPaths(dir, es)
      ensures (k in ExtractInto(written, dir, es) <==> k in written)
      ensures k in written ==> ExtractInto(written, dir, es)[k] == written[k]
    {
      ExtractElsewhere(written, dir, es, k);
    }
  }

  /** The paths the members of `es` are extracted to. */
  function ChildPaths(dir: Path, es: seq<Entry>): set<Path>
  {
    set i | 0 <= i < |es| :: dir + "/" + es[i].name
  }

  class PyMinion {
    /** Where requests are posted. */
    var baseUrl: string

    /** The object once its checks have passed: the plain base URL, switched
        to the /website endpoint in website mode. */
    constructor (hostname: string, port: Option<nat>, protocol: string, mode: string)
      ensures baseUrl == BaseUrl(protocol, hostname, port, mode == "website")
    {
      baseUrl := BaseUrl(protocol, hostname, port, false);
      if mode == "website" {
        baseUrl := BaseUrl(protocol, hostname, port, true);
      }
    }

    /** PyMinion(...): checks the protocol, tests the connection with a GET
        of the plain base URL, and only then builds the object. */
    static method Connect(hostname: string, port: Option<nat>, protocol: string, mode: string,
                          probe: string -> Option<int>)
      returns (r: Result<PyMinion, ClientError>)
      ensures r.Err? <==> ConnectError(protocol, hostname, port, probe).Some?
      ensures r.Err? ==> r.error == ConnectError(protocol, hostname, port, probe).value
      ensures r.Ok? ==> fresh(r.value) && r.value.baseUrl == BaseUrl(protocol, hostname, port, mode == "website")
    {
      if protocol != "https" && protocol != "http" {
        return Err(BadProtocol);
      }
      var status := probe(BaseUrl(protocol, hostname, port, false));
      if status != Some(200) {
        return Err(Unresponsive(status));
      }
      var m := new PyMinion(hostname, port, protocol, mode);
      r := Ok(m);
    }

    /** request_url: `stamp` is the current time and `netloc`, `path` the
        parts of the parsed URL; `post` answers the POST of the payload to
        the base URL, `unzip` reads an archive's members and
        `removeFails` says whether removing res.zip raises. */
    method RequestUrl(fs: FileSystem, returnPath: Path, url: string, userAgent: Option<string>,
                      stamp: Stamp, netloc: string, path: string,
                      post: (string, map<string, string>) -> PostOutcome,
                      unzip: Bytes -> Option<seq<Entry>>, removeFails: bool)
      returns (r: Result<Option<Path>, ClientError>)
      requires fs.Valid() && '/' !in netloc && FlatReader(unzip)
      modifies fs
      ensures fs.Valid()
      ensures var dir := ResultPath(returnPath, stamp, netloc, path);
        if old(fs.Exists(dir)) then
          r == Err(AlreadyFetched) && fs.dirs == old(fs.dirs) && fs.files == old(fs.files)
        else if old(fs.MkdirError(dir)).Some? then
          r == Err(Os(old(fs.MkdirError(dir)).value)) && fs.dirs == old(fs.dirs) && fs.files == old(fs.files)
        else
          var outcome := post(baseUrl, Payload(url, userAgent));
          && fs.dirs == old(fs.dirs) + {dir}
          && r == DeliveryResult(dir, outcome, unzip)
          && fs.files == DeliveryFiles(old(fs.files), dir, outcome, unzip, removeFails)
    {
      var payload := map["url" := url];
      var prefix := SanitizePrefix(PathPrefix(path));
      var dir := Join(returnPath, ResultName(stamp, netloc, prefix));
      if fs.Exists(dir) {
        return Err(AlreadyFetched);
      }
      ResultNamePlain(returnPath, stamp, netloc, path);
      fs.FreshIsEmpty(dir);
      var e := fs.Mkdir(dir);
      if e.Some? {
        return Err(Os(e.value));
      }
      if userAgent.Some? {
        payload := payload["user-agent" := userAgent.value];
      }
      var outcome := post(baseUrl, payload);
      if outcome.PostFailed? {
        return Err(Failed);
      }
      if outcome.status != 200 {
        return Ok(None);
      }
      var ok := Deliver(fs, dir, outcome.body, unzip, removeFails);
      r := if ok then Ok(Some(dir)) else Err(Failed);
    }

    /** Two calls in the same second for the same host and path prefix: once
        the first has created the result directory the second is refused,
        so at most one directory is created. */
    method RequestTwice(fs: FileSystem, returnPath: Path, url: string, userAgent: Option<string>,
                        stamp: Stamp, netloc: string, path: string,
                        post: (string, map<string, string>) -> PostOutcome,
                        unzip: Bytes -> Option<seq<Entry>>, removeFails: bool)
      returns (first: Result<Option<Path>, ClientError>, second: Result<Option<Path>, ClientError>)
      requires fs.Valid() && '/' !in netloc && FlatReader(unzip)
      modifies fs
      ensures fs.Valid()
      ensures var dir := ResultPath(returnPath, stamp, netloc, path);
        && fs.dirs <= old(fs.dirs) + {dir}
        && (old(fs.Exists(dir)) || old(fs.MkdirError(dir)).None? ==> second == Err(AlreadyFetched))
        && (old(fs.MkdirError(dir)).None? ==> fs.dirs == old(fs.dirs) + {dir})
    {
      first := RequestUrl(fs, returnPath, url, userAgent, stamp, netloc, path, post, unzip, removeFails);
      second := RequestUrl(fs, returnPath, url, userAgent, stamp, netloc, path, post, unzip, removeFails);
    }
  }

  /** The 200 branch of request_url: the body is written to res.zip, the
      archive is read back and extracted into `dir`, and res.zip is
      removed; a failure of that removal is ignored. */
  method Deliver(fs: FileSystem, dir: Path, body: Bytes, unzip: Bytes -> Option<seq<Entry>>, removeFails: bool)
    returns (ok: bool)
    requires fs.Valid() && dir in fs.dirs && EntryPath(dir) && fs.NoSubdirs(dir) && FlatReader(unzip)
    modifies fs
    ensures fs.Valid() && fs.dirs == old(fs.dirs)
    ensures ok <==> unzip(body).Some?
    ensures fs.files == DeliveryFiles(old(fs.files), dir, Replied(200, body), unzip, removeFails)
  {
    var zipPath := ZipPath(dir);
    JoinChild(dir, "res.zip");
    fs.CanCreateChild(dir, "res.zip");
    WriteBody(fs, zipPath, body);
    var members := unzip(fs.files[zipPath].data);
    if members.None? {
      return false;
    }
    ExtractAll(fs, dir, members.value);
    if !removeFails {
      fs.RemoveFile(zipPath);
    }
    ok := true;
  }

  /** open(zip_path, 'wb') and one write per chunk of 100000 bytes of the
      body: the file ends up holding the whole body. */
  method WriteBody(fs: FileSystem, zipPath: Path, body: Bytes)
    requires fs.Valid() && fs.CanCreate(zipPath)
    modifies fs
    ensures fs.Valid() && fs.dirs == old(fs.dirs)
    ensures fs.files == old(fs.files)[zipPath := Raw(body)]
  {
    fs.WriteFile(zipPath, Raw([]));
    ghost var before := old(fs.files);
    var chunks := Chunks(body, 100000);
    for i := 0 to |chunks|
      invariant fs.Valid() && fs.dirs == old(fs.dirs)
      invariant fs.files == before[zipPath := Raw(Flatten(chunks[..i]))]
    {
      assert Flatten(chunks[..i + 1]) == Flatten(chunks[..i]) + chunks[i] by {
        assert chunks[..i + 1][..i] == chunks[..i];
      }
      fs.AppendBytes(zipPath, chunks[i]);
    }
    assert chunks[..|chunks|] == chunks;
    ChunksFlatten(body, 100000);
  }

  /** extractall into a directory without subdirectories, one member at a
      time. */
  method ExtractAll(fs: FileSystem, dir: Path, es: seq<Entry>)
    requires fs.Valid() && dir in fs.dirs && EntryPath(dir) && fs.NoSubdirs(dir)
    requires forall i :: 0 <= i < |es| ==> Extractable(es[i].name)
    modifies fs
    ensures fs.Valid() && fs.dirs == old(fs.dirs)
    ensures fs.files == ExtractInto(old(fs.files), dir, es)
  {
    for i := 0 to |es|
      invariant fs.Valid() && fs.dirs == old(fs.dirs)
      invariant fs.files == ExtractInto(old(fs.files), dir, es[..i])
    {
      assert es[..i + 1][..i] == es[..i];
      JoinChild(dir, es[i].name);
      fs.CanCreateChild(dir, es[i].name);
      fs.WriteFile(Join(dir, es[i].name), es[i].content);
    }
    assert es[..|es|] == es;
  }
}
