/** Shared vocabulary of the relay model: optional and failing results,
    byte strings, chunked streams, decimal rendering and path strings. */
module Common {

  datatype Option<+T> = None | Some(value: T)

  datatype Result<+T, +E> = Ok(value: T) | Err(error: E)

  newtype byte = x: int | 0 <= x < 256

  type Bytes = seq<byte>

  type Path = string

  // ---------------------------------------------------------------------
  // Chunked streams (requests' iter_content)

  /** The in-order concatenation of a sequence of chunks. */
  function Flatten(chunks: seq<Bytes>): Bytes
  {
    if chunks == [] then [] else Flatten(chunks[..|chunks| - 1]) + chunks[|chunks| - 1]
  }

  lemma {:induction false} FlattenCons(c: Bytes, rest: seq<Bytes>)
    ensures Flatten([c] + rest) == c + Flatten(rest)
    decreases |rest|
  {
    if rest != [] {
      var all := [c] + rest;
      assert all[..|all| - 1] == [c] + rest[..|rest| - 1];
      FlattenCons(c, rest[..|rest| - 1]);
    } else {
      assert ([c] + rest)[..0] == [];
    }
  }

  /** Splitting the chunk list anywhere splits the concatenation there. */
  lemma {:induction false} FlattenSplit(chunks: seq<Bytes>, k: nat)
    requires k <= |chunks|
    ensures Flatten(chunks) == Flatten(chunks[..k]) + Flatten(chunks[k..])
    decreases |chunks|
  {
    if k < |chunks| {
      var n := |chunks|;
      var front := chunks[..n - 1];
      FlattenSplit(front, k);
      assert front[..k] == chunks[..k];
      assert chunks[k..][..|chunks[k..]| - 1] == front[k..];
      assert chunks[k..][|chunks[k..]| - 1] == chunks[n - 1];
    } else {
      assert chunks[..k] == chunks;
      assert chunks[k..] == [];
    }
  }

  /** The pieces in which a body of bytes is streamed, `size` bytes at a time;
      an empty body yields no chunk at all. */
  function Chunks(body: Bytes, size: nat): seq<Bytes>
    requires size > 0
    decreases |body|
  {
    if body == [] then []
    else if |body| <= size then [body]
    else [body[..size]] + Chunks(body[size..], size)
  }

  /** Streaming a body chunk by chunk and concatenating the chunks gives the
      body back, and no chunk is empty or larger than the chunk size. */
  lemma {:induction false} ChunksFlatten(body: Bytes, size: nat)
    requires size > 0
    ensures Flatten(Chunks(body, size)) == body
    ensures forall c :: c in Chunks(body, size) ==> 0 < |c| <= size
    decreases |body|
  {
    if body == [] {
    } else if |body| <= size {
      FlattenCons(body, []);
    } else {
      ChunksFlatten(body[size..], size);
      FlattenCons(body[..size], Chunks(body[size..], size));
      assert body[..size] + body[size..] == body;
    }
  }

  // ---------------------------------------------------------------------
  // Decimal rendering (Python's str() and "{}".format of a non-negative int)

  function DigitChar(d: nat): char
    requires d < 10
  {
    ('0' as int + d) as char
  }

  function DigitValue(c: char): nat
  {
    if '0' <= c <= '9' then c as int - '0' as int else 0
  }

  /** Decimal digits of `n`, most significant first, with no padding. */
  function DecimalString(n: nat): (s: string)
    ensures |s| > 0
    ensures forall i :: 0 <= i < |s| ==> '0' <= s[i] <= '9'
    ensures |s| > 1 ==> s[0] != '0'
  {
    if n < 10 then [DigitChar(n)] else DecimalString(n / 10) + [DigitChar(n % 10)]
  }

  /** Reads a string of decimal digits back as a number. */
  function ParseDecimal(s: string): nat
  {
    if s == [] then 0 else 10 * ParseDecimal(s[..|s| - 1]) + DigitValue(s[|s| - 1])
  }

  /** Rendering then parsing gives the number back. */
  lemma {:induction false} DecimalRoundTrip(n: nat)
    ensures ParseDecimal(DecimalString(n)) == n
  {
    if n >= 10 {
      var s := DecimalString(n);
      assert s[..|s| - 1] == DecimalString(n / 10);
      DecimalRoundTrip(n / 10);
    }
  }

  /** Distinct numbers have distinct renderings. */
  lemma DecimalInjective(m: nat, n: nat)
    requires DecimalString(m) == DecimalString(n)
    ensures m == n
  {
    DecimalRoundTrip(m);
    DecimalRoundTrip(n);
  }

  // ---------------------------------------------------------------------
  // Substrings (Python's `t in s` on strings)

  predicate IsPrefix<T(==)>(t: seq<T>, s: seq<T>)
  {
    |t| <= |s| && s[..|t|] == t
  }

  predicate Contains(s: string, t: string)
  {
    IsPrefix(t, s) || (|s| > 0 && Contains(s[1..], t))
  }

  /** A string contains each of its suffixes. */
  lemma {:induction false} ContainsSuffix(s: string, t: string)
    ensures Contains(s + t, t)
    decreases |s|
  {
    if s == [] {
      assert s + t == t;
    } else {
      assert (s + t)[1..] == s[1..] + t;
      ContainsSuffix(s[1..], t);
    }
  }

  /** A string that lacks some character of `t` does not contain `t`. */
  lemma {:induction false} NotContainsMissingChar(s: string, t: string, c: char)
    requires c in t && c !in s
    ensures !Contains(s, t)
    decreases |s|
  {
    if |s| > 0 {
      assert forall j :: 0 <= j < |s[1..]| ==> s[1..][j] == s[j + 1];
      NotContainsMissingChar(s[1..], t, c);
    }
  }

  // ---------------------------------------------------------------------
  // Identifiers (str(uuid.uuid4()))

  predicate HexDigit(c: char)
  {
    '0' <= c <= '9' || 'a' <= c <= 'f'
  }

  /** The canonical text of a UUID: 36 characters, hyphens at positions 8,
      13, 18 and 23 and lower-case hexadecimal digits elsewhere. */
  predicate IsUuid(s: string)
  {
    && |s| == 36
    && (forall i :: 0 <= i < |s| && i != 8 && i != 13 && i != 18 && i != 23 ==> HexDigit(s[i]))
    && s[8] == '-' && s[13] == '-' && s[18] == '-' && s[23] == '-'
  }

  /** A UUID is a plain name made of hexadecimal digits and hyphens only. */
  lemma UuidAlphabet(s: string)
    requires IsUuid(s)
    ensures PlainName(s)
    ensures forall c :: c in s ==> c == '-' || HexDigit(c)
  {
  }

  // ---------------------------------------------------------------------
  // Path strings (posixpath.join and the base name pyminizip stores)

  /** A single path component: non-empty and free of '/'. */
  predicate PlainName(n: string)
  {
    |n| > 0 && '/' !in n
  }

  /** posixpath.join of two components. */
  function Join(a: Path, b: string): Path
  {
    if |b| > 0 && b[0] == '/' then b
    else if a == [] || a[|a| - 1] == '/' then a + b
    else a + "/" + b
  }

  /** The text after the last '/' of a path. */
  function Basename(p: Path): string
  {
    if p == [] || p[|p| - 1] == '/' then [] else Basename(p[..|p| - 1]) + [p[|p| - 1]]
  }

  /** The base name of `dir/name` is `name` for a plain name. */
  lemma {:induction false} BasenameChild(dir: Path, name: string)
    requires '/' !in name
    ensures Basename(dir + "/" + name) == name
    decreases |name|
  {
    var p := dir + "/" + name;
    if name == [] {
      assert p[|p| - 1] == '/';
    } else {
      var last := name[|name| - 1];
      assert last in name;
      assert p[..|p| - 1] == dir + "/" + name[..|name| - 1];
      assert forall c :: c in name[..|name| - 1] ==> c in name;
      BasenameChild(dir, name[..|name| - 1]);
      assert name[..|name| - 1] + [last] == name;
    }
  }

  /** A path that names a directory entry: non-empty and not ending in '/'. */
  predicate EntryPath(p: Path)
  {
    |p| > 0 && p[|p| - 1] != '/'
  }

  /** Joining a plain name onto an entry path adds exactly one separator, and
      the result is again an entry path. */
  lemma JoinChild(a: Path, b: string)
    requires EntryPath(a) && PlainName(b)
    ensures Join(a, b) == a + "/" + b
    ensures EntryPath(Join(a, b))
  {
    assert b[0] in b;
    assert b[|b| - 1] in b;
  }

  /** Different names give different entries of one directory. */
  lemma ChildInjective(dir: Path, a: string, b: string)
    requires dir + "/" + a == dir + "/" + b
    ensures a == b
  {
    assert a == (dir + "/" + a)[|dir| + 1..];
    assert b == (dir + "/" + b)[|dir| + 1..];
  }

  /** Joining a plain name onto any directory path gives an entry path that
      ends with that name. */
  lemma JoinPlain(a: Path, b: string)
    requires PlainName(b)
    ensures EntryPath(Join(a, b))
    ensures Join(a, b) == (if a == [] || a[|a| - 1] == '/' then a + b else a + "/" + b)
  {
    assert b[0] in b;
    assert b[|b| - 1] in b;
  }
}
