/** A filesystem as the relay and the client see it: a set of directories
    and a map from file paths to contents, with the directory operations the
    source calls (mkdir, rmdir, listdir, open/write, remove) and archive
    creation in the way pyminizip does it. */
module Files {
  import opened Common
  import opened Metadata

  /** What a file holds: raw bytes, a serialised record (`null` when the
      record is None), or an archive. */
  datatype Content = Raw(data: Bytes) | Json(record: Option<Record>) | Zip(archive: Archive)

  datatype Entry = Entry(name: string, content: Content)

  /** An archive: its entries in the order they were added, the password
      that encrypts them (if any) and the compression level. */
  datatype Archive = Archive(entries: seq<Entry>, password: Option<string>, level: int)

  /** What opening an archive with a password gives, which is what the
      password of an `Archive` means: an unencrypted archive opens with or
      without a password, an encrypted one only with its own password. */
  function Extract(a: Archive, password: Option<string>): Option<seq<Entry>>
  {
    if a.password.None? || a.password == password then Some(a.entries) else None
  }

  datatype OsError =
    | AlreadyExists(path: Path)
    | NoSuchDirectory(path: Path)
    | NotEmpty(path: Path)
    | NoSuchFile(path: Path)

  /** `q` lies somewhere below directory `p`. */
  predicate Under(q: Path, p: Path)
  {
    |q| > |p| && q[..|p|] == p && q[|p|] == '/'
  }

  /** `q` is an immediate entry of directory `p`. */
  predicate IsChild(q: Path, p: Path)
  {
    Under(q, p) && '/' !in q[|p| + 1..]
  }

  /** Every proper ancestor of `p` (each prefix before a '/') is a directory. */
  predicate AncestorsIn(p: Path, dirs: set<Path>)
  {
    forall k :: 0 < k < |p| && p[k] == '/' ==> p[..k] in dirs
  }

  /** A plain name put below a directory whose ancestors are directories has
      only directories as ancestors. */
  lemma ChildAncestors(d: Path, n: string, dirs: set<Path>)
    requires d in dirs && AncestorsIn(d, dirs) && '/' !in n
    ensures AncestorsIn(d + "/" + n, dirs)
  {
    var p := d + "/" + n;
    forall k | 0 < k < |p| && p[k] == '/'
      ensures p[..k] in dirs
    {
      if k < |d| {
        assert p[..k] == d[..k];
      } else if k == |d| {
        assert p[..k] == d;
      }
    }
  }

  /** The entries an archive built from `srcs` holds: each existing file's
      base name and current content, in list order. */
  function EntriesOf(srcs: seq<Path>, files: map<Path, Content>): (r: seq<Entry>)
    ensures (forall s :: s in srcs ==> s in files) ==>
      && |r| == |srcs|
      && forall i :: 0 <= i < |srcs| ==> r[i] == Entry(Basename(srcs[i]), files[srcs[i]])
  {
    if srcs == [] then []
    else
      var last := srcs[|srcs| - 1];
      EntriesOf(srcs[..|srcs| - 1], files) + (if last in files then [Entry(Basename(last), files[last])] else [])
  }

  /** An archive of two existing files holds both, in order. */
  lemma EntriesOfPair(a: Path, b: Path, files: map<Path, Content>)
    requires a in files && b in files
    ensures EntriesOf([a, b], files) == [Entry(Basename(a), files[a]), Entry(Basename(b), files[b])]
  {
    assert [a, b][..1] == [a];
  }

  /** No file lies below `d`. */
  predicate NoFileUnder(files: map<Path, Content>, d: Path)
  {
    forall q :: q in files ==> !Under(q, d)
  }

  /** The names of the immediate entries of `d`. */
  function ChildNames(d: Path, dirs: set<Path>, files: map<Path, Content>): set<string>
  {
    (set q | q in files && IsChild(q, d) :: q[|d| + 1..])
      + (set q | q in dirs && IsChild(q, d) :: q[|d| + 1..])
  }

  /** An immediate entry that is a file is listed under its name. */
  lemma ChildListed(q: Path, d: Path, dirs: set<Path>, files: map<Path, Content>)
    requires q in files && IsChild(q, d)
    ensures q[|d| + 1..] in ChildNames(d, dirs, files)
  {
  }

  /** An immediate entry is its directory, a separator and its name. */
  lemma ChildOf(q: Path, d: Path)
    requires IsChild(q, d)
    ensures q == d + "/" + q[|d| + 1..]
  {
    assert q == q[..|d|] + [q[|d|]] + q[|d| + 1..];
  }

  class FileSystem {
    var dirs: set<Path>
    var files: map<Path, Content>

    /** Nothing is both a file and a directory, and every ancestor of an
        existing path is a directory. */
    ghost predicate Valid()
      reads this
    {
      && dirs !! files.Keys
      && (forall p :: p in dirs ==> AncestorsIn(p, dirs))
      && (forall p :: p in files ==> AncestorsIn(p, dirs))
      && (forall p :: p in files ==> EntryPath(p))
    }

    constructor (roots: set<Path>)
      requires forall p :: p in roots ==> AncestorsIn(p, roots)
      ensures Valid() && dirs == roots && files == map[]
    {
      dirs := roots;
      files := map[];
    }

    /** os.path.exists */
    predicate Exists(p: Path)
      reads this
    {
      p in dirs || p in files
    }

    /** A regular file may be opened for writing at `p`. */
    predicate CanCreate(p: Path)
      reads this
    {
      EntryPath(p) && AncestorsIn(p, dirs) && p !in dirs
    }

    /** No directory lies below `d`. */
    predicate NoSubdirs(d: Path)
      reads this
    {
      forall q :: q in dirs ==> !Under(q, d)
    }

    /** Nothing at all lies below `d`. */
    predicate IsEmptyDir(d: Path)
      reads this
    {
      NoSubdirs(d) && NoFileUnder(files, d)
    }

    /** The names os.listdir(d) reports. */
    function Children(d: Path): set<string>
      reads this
    {
      ChildNames(d, dirs, files)
    }

    /** The result os.mkdir(p) would have. */
    function MkdirError(p: Path): Option<OsError>
      reads this
    {
      if Exists(p) then Some(AlreadyExists(p))
      else if p == [] || !AncestorsIn(p, dirs) then Some(NoSuchDirectory(p))
      else None
    }

    /** The entries of a directory without subdirectories are plain names of
        files in it. */
    lemma ChildrenAreFiles(d: Path)
      requires Valid() && NoSubdirs(d)
      ensures forall n :: n in Children(d) ==> PlainName(n) && d + "/" + n in files
    {
      forall n | n in Children(d)
        ensures PlainName(n) && d + "/" + n in files
      {
        var q :| q in files && IsChild(q, d) && n == q[|d| + 1..];
        ChildOf(q, d);
      }
    }

    /** In a valid filesystem nothing lies below a path that does not exist:
        a directory that was just created is empty. */
    lemma FreshIsEmpty(d: Path)
      requires Valid() && EntryPath(d) && !Exists(d)
      ensures IsEmptyDir(d)
    {
    }

    /** In a directory with no subdirectory, a plain name can be created. */
    lemma CanCreateChild(d: Path, n: string)
      requires Valid() && d in dirs && NoSubdirs(d) && PlainName(n)
      ensures CanCreate(d + "/" + n)
    {
      ChildAncestors(d, n, dirs);
      assert Under(d + "/" + n, d);
      assert n[|n| - 1] in n;
    }

    /** os.mkdir: fails when the path exists already or its parent is not a
        directory. */
    method Mkdir(p: Path) returns (e: Option<OsError>)
      requires Valid()
      modifies this
      ensures Valid() && files == old(files)
      ensures e == old(MkdirError(p))
      ensures dirs == if e.None? then old(dirs) + {p} else old(dirs)
    {
      if Exists(p) {
        e := Some(AlreadyExists(p));
      } else if p == [] || !AncestorsIn(p, dirs) {
        e := Some(NoSuchDirectory(p));
      } else {
        e := None;
        dirs := dirs + {p};
      }
    }

    /** os.rmdir: removes an empty directory, and fails on one that still
        holds something. */
    method Rmdir(p: Path) returns (e: Option<OsError>)
      requires Valid()
      modifies this
      ensures Valid() && files == old(files)
      ensures e == (if p !in old(dirs) then Some(NoSuchDirectory(p))
                    else if !old(IsEmptyDir(p)) then Some(NotEmpty(p))
                    else None)
      ensures dirs == if e.None? then old(dirs) - {p} else old(dirs)
    {
      if p !in dirs {
        e := Some(NoSuchDirectory(p));
      } else if !IsEmptyDir(p) {
        e := Some(NotEmpty(p));
      } else {
        e := None;
        ghost var before := dirs;
        dirs := dirs - {p};
        forall q | q in dirs + files.Keys
          ensures AncestorsIn(q, dirs)
        {
          forall k | 0 < k < |q| && q[k] == '/'
            ensures q[..k] in dirs
          {
            assert q[..k] in before;
            assert q[..k] == p ==> Under(q, p);
          }
        }
      }
    }

    /** open(p, 'w') followed by writing `c`: creates or truncates the file. */
    method WriteFile(p: Path, c: Content)
      requires Valid() && CanCreate(p)
      modifies this
      ensures Valid() && dirs == old(dirs)
      ensures files == old(files)[p := c]
    {
      files := files[p := c];
    }

    /** One more write to a file opened for writing. */
    method AppendBytes(p: Path, b: Bytes)
      requires Valid() && p in files && files[p].Raw?
      modifies this
      ensures Valid() && dirs == old(dirs)
      ensures files == old(files)[p := Raw(old(files)[p].data + b)]
    {
      files := files[p := Raw(files[p].data + b)];
    }

    /** os.remove */
    method RemoveFile(p: Path)
      requires Valid() && p in files
      modifies this
      ensures Valid() && dirs == old(dirs)
      ensures files == old(files) - {p}
    {
      files := files - {p};
    }

    /** pyminizip.compress / compress_multiple: reads every source in turn,
        stores it under its base name and writes the archive to `dst`; a
        source that is not a file makes the call fail. */
    method Compress(srcs: seq<Path>, dst: Path, password: Option<string>, level: int)
      returns (e: Option<OsError>)
      requires Valid() && CanCreate(dst)
      modifies this
      ensures Valid() && dirs == old(dirs)
      ensures e.None? <==> (forall s :: s in srcs ==> s in old(files))
      ensures e.None? ==> files == old(files)[dst := Zip(Archive(EntriesOf(srcs, old(files)), password, level))]
      ensures e.Some? ==> files == old(files) && e.value.NoSuchFile? && e.value.path in srcs
    {
      var entries: seq<Entry> := [];
      var i := 0;
      while i < |srcs|
        invariant 0 <= i <= |srcs|
        invariant forall j :: 0 <= j < i ==> srcs[j] in files
        invariant entries == EntriesOf(srcs[..i], files)
      {
        if srcs[i] !in files {
          return Some(NoSuchFile(srcs[i]));
        }
        assert srcs[..i + 1][..i] == srcs[..i];
        entries := entries + [Entry(Basename(srcs[i]), files[srcs[i]])];
        i := i + 1;
      }
      assert srcs[..i] == srcs;
      e := None;
      files := files[dst := Zip(Archive(entries, password, level))];
    }

    /** os.listdir(d): every entry name of `d` once, in no particular order. */
    method ListDir(d: Path) returns (names: seq<string>)
      ensures forall n :: n in names <==> n in Children(d)
      ensures forall i, j :: 0 <= i < j < |names| ==> names[i] != names[j]
    {
      var rest := Children(d);
      names := [];
      while rest != {}
        invariant rest !! set n | n in names
        invariant rest + (set n | n in names) == Children(d)
        invariant forall i, j :: 0 <= i < j < |names| ==> names[i] != names[j]
        decreases |rest|
      {
        var n :| n in rest;
        names := names + [n];
        rest := rest - {n};
      }
    }
  }
}
