/**
 * The part of the file system the installer touches: which paths are
 * directories, what the files hold, and which paths cannot be created or
 * written (permissions, a full disk). `Disk` is a snapshot of it as a value;
 * `FileSystem` is the mutable file system the command's steps change.
 */
module Disk {
  import opened Wrappers

  datatype Disk = Disk(dirs: set<string>, files: map<string, string>, unwritable: set<string>)

  /** `mkdir($p, 0755, true)` succeeds: it fails on a path that already exists. */
  predicate CanCreate(d: Disk, p: string)
  {
    p !in d.unwritable && p !in d.files && p !in d.dirs
  }

  /** `file_put_contents($p, ...)` succeeds. */
  predicate CanWrite(d: Disk, p: string)
  {
    p !in d.unwritable && p !in d.dirs
  }

  /** `is_dir($p) || mkdir($p, 0755, true)`: the disk afterwards, or `None` when this is false. */
  function EnsureDirectory(d: Disk, p: string): (r: Option<Disk>)
    ensures r.Some? <==> p in d.dirs || CanCreate(d, p)
    ensures r.Some? ==> r.value == d.(dirs := d.dirs + {p})
  {
    if p in d.dirs then Some(d)
    else if CanCreate(d, p) then Some(d.(dirs := d.dirs + {p}))
    else None
  }

  /** `file_put_contents($p, $data)`: the disk afterwards and whether it wrote. */
  function WriteFile(d: Disk, p: string, data: string): (r: (bool, Disk))
    ensures r.0 <==> CanWrite(d, p)
    ensures r.1 == if r.0 then d.(files := d.files[p := data]) else d
  {
    if CanWrite(d, p) then (true, d.(files := d.files[p := data])) else (false, d)
  }

  class FileSystem {
    var dirs: set<string>
    var files: map<string, string>
    const unwritable: set<string>

    function State(): Disk
      reads this
    {
      Disk(dirs, files, unwritable)
    }

    constructor (d: Disk)
      ensures State() == d
    {
      dirs := d.dirs;
      files := d.files;
      unwritable := d.unwritable;
    }

    /** `is_dir($p)`. */
    predicate IsDir(p: string)
      reads this
    {
      p in dirs
    }

    /** `file_exists($p) && is_file($p)`. */
    predicate IsFile(p: string)
      reads this
    {
      p in files
    }

    /** `mkdir($p, 0755, true)`. */
    method MakeDirectory(p: string) returns (ok: bool)
      modifies this
      ensures ok <==> CanCreate(old(State()), p)
      ensures State() == if ok then old(State()).(dirs := old(dirs) + {p}) else old(State())
    {
      ok := p !in unwritable && p !in files && p !in dirs;
      if ok {
        dirs := dirs + {p};
      }
    }

    /** `file_put_contents($p, $data)`; `false` is a failed write. */
    method PutContents(p: string, data: string) returns (ok: bool)
      modifies this
      ensures (ok, State()) == WriteFile(old(State()), p, data)
    {
      ok := p !in unwritable && p !in dirs;
      if ok {
        files := files[p := data];
      }
    }

    /** `file_get_contents($p)`; `None` is PHP's `false` (and its warning). */
    method GetContents(p: string) returns (r: Option<string>)
      ensures r == if p in files then Some(files[p]) else None
    {
      r := if p in files then Some(files[p]) else None;
    }
  }
}
