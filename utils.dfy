/** Filesystem and environment helpers (utils/utils.go).

    The filesystem is a map from paths to nodes. A path is the sequence of
    its components starting at the root, so `[]` is the root and joining two
    paths is concatenation. */
module Utils {
  import opened Types

  type Path = seq<string>

  /** A directory with its mode bits, or a regular file with its size. */
  datatype Node = Dir(mode: nat) | File(size: nat)

  /** FileMode.Perm(): the nine permission bits (mask 0o777). */
  function Perm(mode: nat): (p: nat)
    ensures p < 512
    ensures mode < 512 ==> p == mode
  {
    mode % 512
  }

  /** Every proper ancestor of an entry is present and is a directory. */
  ghost predicate WellFormed(entries: map<Path, Node>)
  {
    forall p, i :: p in entries && 0 <= i < |p| ==> p[..i] in entries && entries[p[..i]].Dir?
  }

  /** No existing proper ancestor of `path` is a file. When one is, os.Stat
      fails with "not a directory", which is not a "does not exist" error,
      and the Go code dereferences a nil FileInfo; callers must exclude it. */
  predicate NoFileAbove(entries: map<Path, Node>, path: Path)
  {
    forall i :: 0 <= i < |path| && path[..i] in entries ==> entries[path[..i]].Dir?
  }

  function Prefixes(path: Path): (r: set<Path>)
    ensures forall q :: q in r <==> q <= path
  {
    var r := set i | 0 <= i <= |path| :: path[..i];
    assert forall q :: q <= path ==> q == path[..|q|];
    r
  }

  /** The effect of os.MkdirAll(path, perm): every missing ancestor of `path`,
      and `path` itself, becomes a directory with mode `perm`. */
  function AfterMkdirAll(entries: map<Path, Node>, path: Path, perm: nat): (r: map<Path, Node>)
    ensures path in r && r[path] == (if path in entries then entries[path] else Dir(perm))
    ensures forall p :: p in entries ==> p in r && r[p] == entries[p]
    ensures forall p :: p in r && p !in entries ==> p <= path && r[p] == Dir(perm)
  {
    entries + map q | q in Prefixes(path) && q !in entries :: Dir(perm)
  }

  /** The effect of os.RemoveAll(path): `path` and everything below it go. */
  function AfterRemoveAll(entries: map<Path, Node>, path: Path): (r: map<Path, Node>)
    ensures forall p :: p in r <==> p in entries && !(path <= p)
    ensures forall p :: p in r ==> r[p] == entries[p]
  {
    map p | p in entries && !(path <= p) :: entries[p]
  }

  lemma MkdirAllWellFormed(entries: map<Path, Node>, path: Path, perm: nat)
    requires WellFormed(entries) && NoFileAbove(entries, path)
    ensures WellFormed(AfterMkdirAll(entries, path, perm))
  {
    var r := AfterMkdirAll(entries, path, perm);
    forall p, i | p in r && 0 <= i < |p|
      ensures p[..i] in r && r[p[..i]].Dir?
    {
      if p !in entries {
        assert p[..i] <= path;
        assert p[..i] == path[..i];
      }
    }
  }

  lemma RemoveAllWellFormed(entries: map<Path, Node>, path: Path)
    requires WellFormed(entries)
    ensures WellFormed(AfterRemoveAll(entries, path))
  {
  }

  /** Creating a missing directory and then removing it again restores
      every entry that existed before; what remains new are ancestors that
      had to be created on the way. */
  lemma MkdirAllThenRemoveAll(entries: map<Path, Node>, path: Path, perm: nat)
    requires WellFormed(entries) && path !in entries
    ensures var r := AfterRemoveAll(AfterMkdirAll(entries, path, perm), path);
      && path !in r
      && (forall p :: p in entries ==> p in r && r[p] == entries[p])
      && (forall p :: p in r && p !in entries ==> p < path)
  {
    forall p | p in entries
      ensures !(path <= p)
    {
      if path <= p {
        PrefixPresent(entries, p, path);
      }
    }
  }

  /** The effect of an os.MkdirAll(path, perm) that the system refuses
      partway: the missing ancestors among the first `depth` components are
      created, and kept, before the refusal; `path` itself never is. A
      `depth` of at least |path| stands for a refusal before any creation. */
  function AfterRefusedMkdirAll(entries: map<Path, Node>, path: Path, perm: nat, depth: nat): (r: map<Path, Node>)
    requires path !in entries
    ensures path !in r
    ensures forall p :: p in entries ==> p in r && r[p] == entries[p]
    ensures forall p :: p in r && p !in entries ==> p < path && r[p] == Dir(perm)
  {
    if depth < |path| then AfterMkdirAll(entries, path[..depth], perm) else entries
  }

  lemma RefusedMkdirAllWellFormed(entries: map<Path, Node>, path: Path, perm: nat, depth: nat)
    requires WellFormed(entries) && NoFileAbove(entries, path) && path !in entries
    ensures WellFormed(AfterRefusedMkdirAll(entries, path, perm, depth))
  {
    if depth < |path| {
      var q := path[..depth];
      forall i | 0 <= i < |q| && q[..i] in entries
        ensures entries[q[..i]].Dir?
      {
        assert q[..i] == path[..i];
      }
      MkdirAllWellFormed(entries, q, perm);
    }
  }

  /** In a well-formed filesystem every prefix of an entry is an entry. */
  lemma PrefixPresent(entries: map<Path, Node>, p: Path, q: Path)
    requires WellFormed(entries) && p in entries && q <= p
    ensures q in entries
  {
    if q != p {
      assert q == p[..|q|];
    }
  }

  /** The mutable filesystem that EnsurePath and the patcher act on. */
  class FileSystem {
    var entries: map<Path, Node>

    ghost predicate Valid()
      reads this
    {
      WellFormed(entries)
    }

    constructor (entries: map<Path, Node>)
      requires WellFormed(entries)
      ensures Valid() && this.entries == entries
    {
      this.entries := entries;
    }

    method RemoveAll(path: Path)
      requires Valid()
      modifies this
      ensures Valid()
      ensures entries == AfterRemoveAll(old(entries), path)
    {
      RemoveAllWellFormed(entries, path);
      entries := AfterRemoveAll(entries, path);
    }
  }

  /** What EnsurePath returns, with the filesystem it leaves behind. */
  datatype EnsureOutcome = EnsureOutcome(created: bool, err: Option<Error>, entries: map<Path, Node>)

  /** The decision EnsurePath makes: create a missing path, refuse an
      existing file, refuse a directory with other permission bits, accept a
      matching directory. `mkdirRefusal` says whether the operating system
      refuses the creation (for reasons the model does not track) and, if
      so, how far os.MkdirAll got before it did. */
  function EnsurePathSpec(entries: map<Path, Node>, path: Path, perm: nat, mkdirRefusal: Option<nat>): (o: EnsureOutcome)
    ensures o.created <==> path !in entries && o.err.None?
    ensures o.err.None? ==> path in o.entries && o.entries[path].Dir?
  {
    if path !in entries then
      match mkdirRefusal
      case Some(depth) => EnsureOutcome(false, Some(MkdirFailed), AfterRefusedMkdirAll(entries, path, perm, depth))
      case None => EnsureOutcome(true, None, AfterMkdirAll(entries, path, perm))
    else if !entries[path].Dir? then EnsureOutcome(false, Some(ErrExist), entries)
    else if Perm(entries[path].mode) != perm then EnsureOutcome(false, Some(ErrPermission), entries)
    else EnsureOutcome(false, None, entries)
  }

  /** Makes sure `path` is a directory with permission bits `perm`,
      creating it (and its missing ancestors) when it does not exist.
      `created` is true exactly when this call made it. */
  method EnsurePath(fs: FileSystem, path: Path, perm: nat, mkdirRefusal: Option<nat>) returns (created: bool, err: Option<Error>)
    requires fs.Valid() && NoFileAbove(fs.entries, path)
    modifies fs
    ensures fs.Valid()
    ensures var o := EnsurePathSpec(old(fs.entries), path, perm, mkdirRefusal);
      created == o.created && err == o.err && fs.entries == o.entries
  {
    var createdPath := false;
    err := None;
    if path !in fs.entries {
      // os.Stat reported that the path does not exist
      if mkdirRefusal.Some? {
        // os.MkdirAll keeps the ancestors it made before the refusal
        RefusedMkdirAllWellFormed(fs.entries, path, perm, mkdirRefusal.value);
        fs.entries := AfterRefusedMkdirAll(fs.entries, path, perm, mkdirRefusal.value);
        err := Some(MkdirFailed);
      } else {
        MkdirAllWellFormed(fs.entries, path, perm);
        fs.entries := AfterMkdirAll(fs.entries, path, perm);
      }
      createdPath := err == None;
    } else {
      var st := fs.entries[path];
      if !st.Dir? {
        return false, Some(ErrExist);
      }
      if Perm(st.mode) != perm {
        return false, Some(ErrPermission);
      }
    }
    return createdPath, err;
  }

  /** A missing path is created, with its ancestors, and reported as new;
      if the system refuses, nothing is reported as created, the path is
      still missing, and only ancestors made before the refusal are new. */
  lemma EnsureMissingPath(entries: map<Path, Node>, path: Path, perm: nat, mkdirRefusal: Option<nat>)
    requires WellFormed(entries) && NoFileAbove(entries, path) && path !in entries
    ensures var o := EnsurePathSpec(entries, path, perm, mkdirRefusal);
      && (o.created <==> o.err.None?)
      && (o.created ==>
            o.entries[path] == Dir(perm) &&
            forall i :: 0 <= i <= |path| ==> path[..i] in o.entries && o.entries[path[..i]].Dir?)
      && (o.created <==> mkdirRefusal.None?)
      && (!o.created ==>
            && o.err == Some(MkdirFailed) && path !in o.entries
            && (forall p :: p in entries ==> p in o.entries && o.entries[p] == entries[p])
            && (forall p :: p in o.entries && p !in entries ==> p < path && o.entries[p] == Dir(perm)))
  {
    var o := EnsurePathSpec(entries, path, perm, mkdirRefusal);
    if o.created {
      forall i | 0 <= i <= |path|
        ensures path[..i] in o.entries && o.entries[path[..i]].Dir?
      {
        assert path[..i] <= path;
      }
    }
  }

  /** An existing path is never created again and the filesystem never
      changes; the result distinguishes a file, a directory with other
      permission bits, and a matching directory. */
  lemma EnsureExistingPath(entries: map<Path, Node>, path: Path, perm: nat, mkdirRefusal: Option<nat>)
    requires path in entries
    ensures var o := EnsurePathSpec(entries, path, perm, mkdirRefusal);
      && !o.created && o.entries == entries
      && (entries[path].File? ==> o.err == Some(ErrExist))
      && (entries[path].Dir? && Perm(entries[path].mode) != perm ==> o.err == Some(ErrPermission))
      && (o.err == None <==> entries[path].Dir? && Perm(entries[path].mode) == perm)
  {
  }

  /** A second EnsurePath on a directory the first one created finds it
      there with the right permission bits: it reports no error and that it
      created nothing. This is what lets the patcher remove only a working
      folder it made itself. */
  lemma EnsurePathIdempotent(entries: map<Path, Node>, path: Path, perm: nat, refusal1: Option<nat>, refusal2: Option<nat>)
    requires WellFormed(entries) && NoFileAbove(entries, path) && perm < 512
    requires EnsurePathSpec(entries, path, perm, refusal1).err.None?
    ensures var o1 := EnsurePathSpec(entries, path, perm, refusal1);
      EnsurePathSpec(o1.entries, path, perm, refusal2) == EnsureOutcome(false, None, o1.entries)
  {
  }

  /** filepath.Join on component paths: the components of `dir`, then those
      of `file`. */
  function Join(dir: Path, file: Path): (p: Path)
    ensures |p| == |dir| + |file| && dir <= p && p[|dir|..] == file
  {
    dir + file
  }

  /** True when the joined path names a regular file holding at least one
      byte; false for a missing path and for a directory. */
  function IsNonEmptyFile(fs: FileSystem, dir: Path, file: Path): (r: bool)
    reads fs
    requires NoFileAbove(fs.entries, Join(dir, file))
    ensures r <==> exists size :: size > 0 && Join(dir, file) in fs.entries && fs.entries[Join(dir, file)] == File(size)
  {
    var p := Join(dir, file);
    if p !in fs.entries then
      false
    else
      var info := fs.entries[p];
      !info.Dir? && info.size > 0
  }

  /** os.Getenv: the value of `name`, or "" when it is unset. */
  function Getenv(env: map<string, string>, name: string): string
  {
    if name in env then env[name] else ""
  }

  /** getEnvAny: the value of the first of `names` whose value is not
      empty, or "" when every one of them is empty or unset. */
  function GetEnvAny(env: map<string, string>, names: seq<string>): (r: string)
    ensures r == "" <==> forall i :: 0 <= i < |names| ==> Getenv(env, names[i]) == ""
    ensures r != "" ==> exists i :: 0 <= i < |names| && r == Getenv(env, names[i])
                                    && forall j :: 0 <= j < i ==> Getenv(env, names[j]) == ""
  {
    if names == [] then ""
    else if Getenv(env, names[0]) != "" then Getenv(env, names[0])
    else
      var r := GetEnvAny(env, names[1..]);
      assert forall i :: 1 <= i < |names| ==> names[i] == names[1..][i - 1];
      r
  }

  /** llb.ProxyEnv */
  datatype ProxyEnv = ProxyEnv(httpProxy: string, httpsProxy: string, noProxy: string, allProxy: string)

  /** The proxy settings passed to build steps, read from the environment. */
  function GetProxy(env: map<string, string>): (r: ProxyEnv)
    ensures r.httpProxy == Getenv(env, "HTTP_PROXY") && r.allProxy == Getenv(env, "HTTP_PROXY")
    ensures r.httpsProxy == Getenv(env, "HTTPS_PROXY")
    ensures r.noProxy == Getenv(env, "NO_PROXY")
  {
    ProxyEnv(GetEnvAny(env, ["HTTP_PROXY"]), GetEnvAny(env, ["HTTPS_PROXY"]),
             GetEnvAny(env, ["NO_PROXY"]), GetEnvAny(env, ["HTTP_PROXY"]))
  }

  /** The two environments of the proxy test: all three variables set, and
      none of them set. */
  lemma GetProxyExamples()
    ensures GetProxy(map["HTTP_PROXY" := "httpproxy", "HTTPS_PROXY" := "httpsproxy", "NO_PROXY" := "noproxy"])
            == ProxyEnv("httpproxy", "httpsproxy", "noproxy", "httpproxy")
    ensures GetProxy(map[]) == ProxyEnv("", "", "", "")
  {
  }
}
