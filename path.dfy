/**
 * The path helpers (`Path::toAbsolute`, `Path::isAbsolute`,
 * `Path::isStream`). The file system is seen through oracles: `realpath`
 * (`None` for PHP's `false`), the working directory (`None` when `getcwd`
 * fails), `DIRECTORY_SEPARATOR`, the registered stream wrappers and the
 * set of paths for which `is_dir($p) || is_file($p)` holds.
 */
module Path {
  import opened Wrappers
  import opened Text

  /** The path with `DIRECTORY_SEPARATOR` turned into `/`. */
  function Normalised(path: string, separator: char): string
  {
    if separator != '/' then ReplaceAll(path, [separator], "/") else path
  }

  /** `array_filter($parts, fn ($part) => $part !== '.')`, keeping the order. */
  function DropDots(parts: seq<string>): (r: seq<string>)
    ensures forall i :: 0 <= i < |r| ==> r[i] != "." && r[i] in parts
    ensures forall p :: p in parts && p != "." ==> p in r
    ensures multiset(r) == multiset(parts)["." := 0]
  {
    if |parts| == 0 then []
    else
      assert parts == [parts[0]] + parts[1..];
      if parts[0] == "." then DropDots(parts[1..])
      else [parts[0]] + DropDots(parts[1..])
  }

  /**
   * Filtering works part by part and keeps the order: the parts of a
   * concatenation are filtered separately, and a single part is dropped
   * exactly when it is `.`.
   */
  lemma {:induction false} DropDotsAppend(a: seq<string>, b: seq<string>)
    ensures DropDots(a + b) == DropDots(a) + DropDots(b)
    ensures |a| == 1 ==> DropDots(a) == if a[0] == "." then [] else a
    decreases |a|
  {
    if |a| > 0 {
      assert (a + b)[1..] == a[1..] + b;
      assert (a + b)[0] == a[0];
      DropDotsAppend(a[1..], b);
      if a[0] != "." {
        calc {
          DropDots(a + b);
          [a[0]] + DropDots(a[1..] + b);
          [a[0]] + (DropDots(a[1..]) + DropDots(b));
          ([a[0]] + DropDots(a[1..])) + DropDots(b);
        }
      }
    } else {
      assert a + b == b;
    }
  }

  /** The segments `toAbsolute` searches: the `/`-split path without `.` parts. */
  function Segments(path: string, separator: char): (segs: seq<string>)
    ensures forall i :: 0 <= i < |segs| ==> segs[i] != "." && '/' !in segs[i]
  {
    var parts := Split(Normalised(path, separator), '/');
    SplitJoin(Normalised(path, separator), '/');
    DropDots(parts)
  }

  /** `realpath` resolves the first `m` segments joined by `/`. */
  predicate PrefixResolves(segs: seq<string>, realpath: string -> Option<string>, m: nat)
    requires m <= |segs|
  {
    realpath(Join(segs[..m], "/")).Some?
  }

  /**
   * The length of the longest prefix of `segs[..n]`, at least one segment
   * long, whose `/`-join `realpath` resolves; 0 when there is none.
   */
  function ResolvableLength(segs: seq<string>, realpath: string -> Option<string>, n: nat): (k: nat)
    requires n <= |segs|
    ensures k <= n
    ensures k > 0 ==> PrefixResolves(segs, realpath, k)
    ensures forall m: nat :: k < m <= n ==> !PrefixResolves(segs, realpath, m)
  {
    if n == 0 then 0
    else if PrefixResolves(segs, realpath, n) then n
    else ResolvableLength(segs, realpath, n - 1)
  }

  /**
   * What `toAbsolute` returns: the resolved longest prefix, or the working
   * directory when no prefix resolves, followed by the separator and the
   * remaining segments when there are any. `None` is the `TypeError` of
   * returning `false` from a `string` function, which happens when the
   * working directory is unknown and nothing is left to append.
   */
  function Absolute(path: string, separator: char, realpath: string -> Option<string>, cwd: Option<string>): Option<string>
  {
    Resolved(Segments(path, separator), separator, realpath, cwd)
  }

  /** The search over `segs` that `Absolute` performs. */
  function Resolved(segs: seq<string>, separator: char, realpath: string -> Option<string>, cwd: Option<string>): Option<string>
  {
    var k := ResolvableLength(segs, realpath, |segs|);
    Assemble(if k > 0 then realpath(Join(segs[..k], "/")) else cwd, segs[k..], separator)
  }

  /**
   * `$match .= DIRECTORY_SEPARATOR . implode(DIRECTORY_SEPARATOR, $append)`
   * when `$append` is not empty; `false` concatenates as "".
   */
  function Assemble(base: Option<string>, append: seq<string>, separator: char): Option<string>
  {
    if |append| > 0 then Some((if base.Some? then base.value else "") + [separator] + Join(append, [separator]))
    else base
  }

  /** `Path::toAbsolute`: splits the path into segments and searches them. */
  method ToAbsolute(path: string, separator: char, realpath: string -> Option<string>, cwd: Option<string>)
    returns (r: Option<string>)
    ensures r == Absolute(path, separator, realpath, cwd)
  {
    var search := Segments(path, separator);
    r := Resolve(search, separator, realpath, cwd);
  }

  /**
   * The `while` loop of `Path::toAbsolute` and what follows it: pops
   * segments off the end of `search` onto the front of `append` until what
   * is left resolves, then appends the popped segments to what resolved.
   */
  method Resolve(segs: seq<string>, separator: char, realpath: string -> Option<string>, cwd: Option<string>)
    returns (r: Option<string>)
    ensures r == Resolved(segs, separator, realpath, cwd)
  {
    var search := segs;
    var append: seq<string> := [];
    var found: Option<string> := None;
    while |search| > 0
      invariant search + append == segs
      invariant found.None?
      invariant ResolvableLength(segs, realpath, |segs|) == ResolvableLength(segs, realpath, |search|)
      decreases |search|
    {
      found := realpath(Join(search, "/"));
      assert search == segs[..|search|];
      if found.Some? {
        break;
      }
      append := [search[|search| - 1]] + append;
      search := search[..|search| - 1];
    }
    assert search == segs[..|search|] && append == segs[|search|..];
    if found.None? {
      found := cwd;
    }
    if |append| > 0 {
      r := Some((if found.Some? then found.value else "") + [separator] + Join(append, [separator]));
    } else {
      r := found;
    }
  }

  /** A path that resolves as a whole is replaced by what it resolves to. */
  lemma AbsoluteOfExistingPath(path: string, separator: char, realpath: string -> Option<string>, cwd: Option<string>)
    requires |Segments(path, separator)| > 0
    requires realpath(Join(Segments(path, separator), "/")).Some?
    ensures Absolute(path, separator, realpath, cwd) == realpath(Join(Segments(path, separator), "/"))
  {
    var segs := Segments(path, separator);
    assert segs[..|segs|] == segs;
  }

  /**
   * When no prefix resolves, every segment is appended to the working
   * directory. For a rooted path the first prefix tried last is the empty
   * segment alone, which joins to ""; PHP's `realpath("")` gives the working
   * directory, and then `RootedPathUnderWorkingDirectory` applies instead.
   */
  lemma AbsoluteOfUnresolvablePath(path: string, separator: char, realpath: string -> Option<string>, cwd: string)
    requires |Segments(path, separator)| > 0
    requires forall m: nat :: 0 < m <= |Segments(path, separator)| ==> !PrefixResolves(Segments(path, separator), realpath, m)
    ensures Absolute(path, separator, realpath, Some(cwd)) == Some(cwd + [separator] + Join(Segments(path, separator), [separator]))
  {
    var segs := Segments(path, separator);
    var k := ResolvableLength(segs, realpath, |segs|);
    assert k == 0;
    assert segs[0..] == segs;
  }

  /**
   * A rooted path none of whose longer prefixes resolves, with `realpath("")`
   * giving the working directory as PHP's does: the path ends up below the
   * working directory, not at the root.
   */
  lemma RootedPathUnderWorkingDirectory(path: string, separator: char, realpath: string -> Option<string>, cwd: string)
    requires |Segments(path, separator)| > 1 && Segments(path, separator)[0] == ""
    requires realpath("") == Some(cwd)
    requires forall m: nat :: 1 < m <= |Segments(path, separator)| ==> !PrefixResolves(Segments(path, separator), realpath, m)
    ensures Absolute(path, separator, realpath, Some(cwd)) == Some(cwd + [separator] + Join(Segments(path, separator)[1..], [separator]))
  {
    var segs := Segments(path, separator);
    assert segs[..1] == [""];
    assert Join(segs[..1], "/") == "";
    assert PrefixResolves(segs, realpath, 1);
    assert ResolvableLength(segs, realpath, |segs|) == 1;
  }

  /** `/[a-zA-Z]:\\/` anchored at the start: a Windows drive prefix. */
  predicate HasDrivePrefix(path: string)
  {
    |path| >= 3 && (('a' <= path[0] <= 'z') || ('A' <= path[0] <= 'Z')) && path[1] == ':' && path[2] == '\\'
  }

  /**
   * `Path::isStream`: the text before the first `://` names a registered
   * stream wrapper (strict `in_array`).
   */
  function IsStream(path: string, wrappers: seq<string>): (b: bool)
    ensures !Contains(path, "://") ==> !b
    ensures b ==> exists i: nat :: OccursAt(path, "://", i) && path[..i] in wrappers
  {
    match FindFirst(path, "://") {
      case None => false
      case Some(i) => path[..i] in wrappers
    }
  }

  /** A path spelled `scheme://rest` with a colon-free scheme is a stream exactly when the scheme is registered. */
  lemma StreamScheme(scheme: string, rest: string, wrappers: seq<string>)
    requires ':' !in scheme
    ensures IsStream(scheme + "://" + rest, wrappers) <==> scheme in wrappers
  {
    var path := scheme + "://" + rest;
    assert OccursAt(path, "://", |scheme|);
    forall j: nat | j < |scheme| ensures !OccursAt(path, "://", j) {
      assert path[j] == scheme[j];
    }
    assert path[..|scheme|] == scheme;
  }

  /**
   * `realpath($path) == $path` with PHP's loose `==`: a failed `realpath`
   * (`false`) equals the strings "" and "0". A resolved path is never a
   * numeric string, so otherwise the comparison is plain string equality.
   */
  predicate ResolvesToItself(path: string, realpath: string -> Option<string>)
  {
    match realpath(path) {
      case Some(p) => p == path
      case None => path == "" || path == "0"
    }
  }

  /** `Path::isAbsolute`. */
  function IsAbsolute(path: string, realpath: string -> Option<string>, wrappers: seq<string>, existing: set<string>): (b: bool)
    ensures ResolvesToItself(path, realpath) ==> b
    ensures (IsStream(path, wrappers) && path in existing) ==> b
  {
    if IsStream(path, wrappers) && path in existing then true
    else if ResolvesToItself(path, realpath) then true
    else if |path| == 0 || path[0] == '.' then false
    else if HasDrivePrefix(path) then true
    else path[0] == '/' || path[0] == '\\'
  }

  /**
   * Past the stream and `realpath` tests, a path is absolute exactly when it
   * starts with a drive prefix, `/` or `\`; an empty path or one starting
   * with `.` is not.
   */
  lemma IsAbsoluteBySpelling(path: string, realpath: string -> Option<string>, wrappers: seq<string>, existing: set<string>)
    requires !(IsStream(path, wrappers) && path in existing) && !ResolvesToItself(path, realpath)
    ensures IsAbsolute(path, realpath, wrappers, existing) <==>
      |path| > 0 && (HasDrivePrefix(path) || path[0] == '/' || path[0] == '\\')
  {
  }

  /** A path starting with `/` or `\` is absolute whatever the oracles say. */
  lemma RootedIsAbsolute(path: string, realpath: string -> Option<string>, wrappers: seq<string>, existing: set<string>)
    requires |path| > 0 && (path[0] == '/' || path[0] == '\\')
    ensures IsAbsolute(path, realpath, wrappers, existing)
  {
  }

  /** The loose comparison makes "0" absolute whenever it does not resolve. */
  lemma ZeroIsAbsoluteWhenUnresolved(realpath: string -> Option<string>, wrappers: seq<string>, existing: set<string>)
    requires realpath("0").None?
    ensures IsAbsolute("0", realpath, wrappers, existing)
  {
  }

  /**
   * What `ensureSslProxyVolumeDirectories` relies on: when `realpath` and the
   * working directory only ever give rooted paths, `toAbsolute` gives a path
   * `isAbsolute` accepts.
   */
  lemma AbsoluteIsAbsolute(path: string, separator: char, realpath: string -> Option<string>, cwd: string,
                           wrappers: seq<string>, existing: set<string>)
    requires forall q :: realpath(q).Some? ==> StartsWith(realpath(q).value, "/")
    requires StartsWith(cwd, "/")
    ensures Absolute(path, separator, realpath, Some(cwd)).Some?
    ensures IsAbsolute(Absolute(path, separator, realpath, Some(cwd)).value, realpath, wrappers, existing)
  {
    var segs := Segments(path, separator);
    var k := ResolvableLength(segs, realpath, |segs|);
    var base := if k > 0 then realpath(Join(segs[..k], "/")).value else cwd;
    assert StartsWith(base, "/");
    var r := Absolute(path, separator, realpath, Some(cwd)).value;
    assert r[0] == base[0];
    RootedIsAbsolute(r, realpath, wrappers, existing);
  }
}
