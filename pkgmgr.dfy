/** Package-manager dispatch and the update reconciliation shared by the
    package-manager implementations (pkgmgr/pkgmgr.go). */
module PkgMgr {
  import opened Types
  import Utils

  /** The only package manager the registry knows: dpkg, for Debian and
      Ubuntu images. Its build-graph configuration is not modelled. */
  datatype PackageManager = DpkgManager(workingFolder: Utils.Path)

  /** The OS families GetPackageManager accepts. */
  const SupportedOSTypes: set<string> := {"debian", "ubuntu"}

  /** Looks up the package manager for an OS family. */
  function GetPackageManager(osType: string, workingFolder: Utils.Path): (r: Result<PackageManager, Error>)
    ensures r.Ok? <==> osType in SupportedOSTypes
    ensures r.Ok? ==> r.value == DpkgManager(workingFolder)
    ensures r.Err? ==> r.error == UnsupportedOSType
  {
    match osType
    case "debian" => Ok(DpkgManager(workingFolder))
    case "ubuntu" => Ok(DpkgManager(workingFolder))
    case _ => Err(UnsupportedOSType)
  }

  // ---------------------------------------------------------------------
  // Version comparison

  /** The ecosystem's version rules: which strings are versions at all, and
      the "older than" relation between two of them. */
  datatype VersionComparer = VersionComparer(isValid: string -> bool, lessThan: (string, string) -> bool)

  ghost predicate StrictOrder(lt: (string, string) -> bool)
  {
    && (forall a :: !lt(a, a))
    && (forall a, b, c :: lt(a, b) && lt(b, c) ==> lt(a, c))
  }

  /** A strict order whose incomparability is an equivalence ("equal
      versions"), as for every real version scheme. */
  ghost predicate StrictWeakOrder(lt: (string, string) -> bool)
  {
    && StrictOrder(lt)
    && (forall a, b, c :: lt(a, c) ==> lt(a, b) || lt(b, c))
  }

  // ---------------------------------------------------------------------
  // GetUniqueLatestUpdates

  /** For each package name with at least one valid FixedVersion, the index
      of the entry whose version GetUniqueLatestUpdates keeps: the entries
      are scanned in order, and a stored version is replaced only by one it
      is LessThan. */
  function LatestIndex(updates: seq<UpdatePackage>, cmp: VersionComparer): (r: map<string, nat>)
    ensures forall k :: k in r ==> r[k] < |updates| && updates[r[k]].name == k
                                    && cmp.isValid(updates[r[k]].fixedVersion)
    decreases |updates|
  {
    if updates == [] then map[]
    else
      var n := |updates| - 1;
      var prev := LatestIndex(updates[..n], cmp);
      var u := updates[n];
      if !cmp.isValid(u.fixedVersion) then prev
      else if u.name !in prev then prev[u.name := n]
      else if cmp.lessThan(updates[prev[u.name]].fixedVersion, u.fixedVersion) then prev[u.name := n]
      else prev
  }

  /** The name -> version table GetUniqueLatestUpdates builds. */
  function LatestVersions(updates: seq<UpdatePackage>, cmp: VersionComparer): map<string, string>
  {
    var idx := LatestIndex(updates, cmp);
    map k | k in idx :: updates[idx[k]].fixedVersion
  }

  /** The error recorded for each entry whose FixedVersion is invalid, in
      the order of the entries. */
  function InvalidVersionErrors(updates: seq<UpdatePackage>, cmp: VersionComparer): (r: seq<Error>)
    ensures |r| <= |updates|
    decreases |updates|
  {
    if updates == [] then []
    else
      var n := |updates| - 1;
      var u := updates[n];
      InvalidVersionErrors(updates[..n], cmp)
        + (if cmp.isValid(u.fixedVersion) then [] else [InvalidVersion(u.fixedVersion, u.name)])
  }

  /** The names of the entries that carry a valid FixedVersion. */
  function ValidNames(updates: seq<UpdatePackage>, cmp: VersionComparer): set<string>
  {
    set i | 0 <= i < |updates| && cmp.isValid(updates[i].fixedVersion) :: updates[i].name
  }

  /** `out` lists the table `m`, one entry per name, in some order; each
      entry carries the name and the version and an empty InstalledVersion. */
  ghost predicate ListsTable(out: seq<UpdatePackage>, m: map<string, string>)
  {
    && (forall i, j :: 0 <= i < j < |out| ==> out[i].name != out[j].name)
    && (forall i :: 0 <= i < |out| ==> out[i].name in m && out[i] == UpdatePackage(out[i].name, "", m[out[i].name]))
    && (set i | 0 <= i < |out| :: out[i].name) == m.Keys
  }

  /** One step of the scan in GetUniqueLatestUpdates applied to the table. */
  lemma LatestVersionsStep(updates: seq<UpdatePackage>, cmp: VersionComparer, i: nat)
    requires i < |updates|
    ensures var dict := LatestVersions(updates[..i], cmp);
            var u := updates[i];
      LatestVersions(updates[..i + 1], cmp) ==
        if !cmp.isValid(u.fixedVersion) then dict
        else if u.name !in dict then dict[u.name := u.fixedVersion]
        else if cmp.lessThan(dict[u.name], u.fixedVersion) then dict[u.name := u.fixedVersion]
        else dict
  {
    assert updates[..i + 1][..i] == updates[..i];
  }

  lemma InvalidVersionErrorsStep(updates: seq<UpdatePackage>, cmp: VersionComparer, i: nat)
    requires i < |updates|
    ensures InvalidVersionErrors(updates[..i + 1], cmp) ==
      InvalidVersionErrors(updates[..i], cmp)
        + (if cmp.isValid(updates[i].fixedVersion) then [] else [InvalidVersion(updates[i].fixedVersion, updates[i].name)])
  {
    assert updates[..i + 1][..i] == updates[..i];
  }

  /** Reduces the update list to one entry per package name, carrying the
      latest valid FixedVersion. Every invalid FixedVersion is an error; the
      errors fail the call unless `ignoreErrors` is set, in which case the
      invalid entries are dropped. */
  method GetUniqueLatestUpdates(updates: seq<UpdatePackage>, cmp: VersionComparer, ignoreErrors: bool)
    returns (out: seq<UpdatePackage>, err: Option<Error>)
    ensures var errs := InvalidVersionErrors(updates, cmp);
      if errs != [] && !ignoreErrors then out == [] && err == Some(Multi(errs))
      else err == None && ListsTable(out, LatestVersions(updates, cmp))
  {
    var dict, allErrors := ScanUpdates(updates, cmp);
    if allErrors != [] && !ignoreErrors {
      return [], Some(Multi(allErrors));
    }
    out := ListTable(dict);
    err := None;
  }

  /** The first loop of GetUniqueLatestUpdates: the table of latest valid
      versions and the errors for the invalid ones, in input order. */
  method ScanUpdates(updates: seq<UpdatePackage>, cmp: VersionComparer)
    returns (dict: map<string, string>, allErrors: seq<Error>)
    ensures dict == LatestVersions(updates, cmp)
    ensures allErrors == InvalidVersionErrors(updates, cmp)
  {
    dict := map[];
    allErrors := [];
    for i := 0 to |updates|
      invariant dict == LatestVersions(updates[..i], cmp)
      invariant allErrors == InvalidVersionErrors(updates[..i], cmp)
    {
      var u := updates[i];
      LatestVersionsStep(updates, cmp, i);
      InvalidVersionErrorsStep(updates, cmp, i);
      if cmp.isValid(u.fixedVersion) {
        if u.name !in dict {
          dict := dict[u.name := u.fixedVersion];
        } else if cmp.lessThan(dict[u.name], u.fixedVersion) {
          dict := dict[u.name := u.fixedVersion];
        }
      } else {
        allErrors := allErrors + [InvalidVersion(u.fixedVersion, u.name)];
      }
    }
    assert updates[..|updates|] == updates;
  }

  /** The second loop of GetUniqueLatestUpdates: one UpdatePackage per key of
      the table (`range dict`; Go visits the keys in no particular order). */
  method ListTable(dict: map<string, string>) returns (out: seq<UpdatePackage>)
    ensures ListsTable(out, dict)
  {
    out := [];
    var rest := dict.Keys;
    while rest != {}
      invariant rest <= dict.Keys
      invariant forall i, j :: 0 <= i < j < |out| ==> out[i].name != out[j].name
      invariant forall i :: 0 <= i < |out| ==> out[i].name in dict && out[i] == UpdatePackage(out[i].name, "", dict[out[i].name])
      invariant (set i | 0 <= i < |out| :: out[i].name) == dict.Keys - rest
      decreases rest
    {
      var k :| k in rest;
      ghost var before := out;
      out := out + [UpdatePackage(k, "", dict[k])];
      rest := rest - {k};
      assert (set i | 0 <= i < |out| :: out[i].name) == (set i | 0 <= i < |before| :: before[i].name) + {k} by {
        assert forall i :: 0 <= i < |before| ==> out[i] == before[i];
        assert out[|before|].name == k;
      }
    }
  }

  lemma ValidNamesStep(updates: seq<UpdatePackage>, cmp: VersionComparer)
    requires updates != []
    ensures var n := |updates| - 1;
      ValidNames(updates, cmp) ==
        ValidNames(updates[..n], cmp) + (if cmp.isValid(updates[n].fixedVersion) then {updates[n].name} else {})
  {
    var n := |updates| - 1;
    var prefix := updates[..n];
    forall x | x in ValidNames(updates, cmp)
      ensures x in ValidNames(prefix, cmp) || (cmp.isValid(updates[n].fixedVersion) && x == updates[n].name)
    {
      var i :| 0 <= i < |updates| && cmp.isValid(updates[i].fixedVersion) && updates[i].name == x;
      if i < n {
        assert prefix[i] == updates[i];
      }
    }
    forall x | x in ValidNames(prefix, cmp)
      ensures x in ValidNames(updates, cmp)
    {
      var i :| 0 <= i < |prefix| && cmp.isValid(prefix[i].fixedVersion) && prefix[i].name == x;
      assert prefix[i] == updates[i];
    }
  }

  /** The names kept are exactly the names that have a valid FixedVersion
      somewhere in the input. */
  lemma {:induction false} LatestKeys(updates: seq<UpdatePackage>, cmp: VersionComparer)
    ensures LatestIndex(updates, cmp).Keys == ValidNames(updates, cmp)
    ensures LatestVersions(updates, cmp).Keys == ValidNames(updates, cmp)
    decreases |updates|
  {
    if updates != [] {
      var n := |updates| - 1;
      LatestKeys(updates[..n], cmp);
      ValidNamesStep(updates, cmp);
    }
  }

  /** Whatever the comparer, no entry after the kept one, of the same name
      and with a valid version, is greater than it: a later entry replaces
      the stored version only when the stored one is LessThan it. */
  lemma {:induction false} LatestNotExceededLater(updates: seq<UpdatePackage>, cmp: VersionComparer, k: string, j: nat)
    requires k in LatestIndex(updates, cmp) && LatestIndex(updates, cmp)[k] < j < |updates|
    requires updates[j].name == k && cmp.isValid(updates[j].fixedVersion)
    ensures !cmp.lessThan(updates[LatestIndex(updates, cmp)[k]].fixedVersion, updates[j].fixedVersion)
    decreases |updates|
  {
    var n := |updates| - 1;
    var prefix := updates[..n];
    var idx := LatestIndex(updates, cmp);
    var prev := LatestIndex(prefix, cmp);
    var u := updates[n];
    if u.name == k && cmp.isValid(u.fixedVersion) {
      assert k in prev;
      assert !cmp.lessThan(updates[prev[k]].fixedVersion, u.fixedVersion);
    }
    assert k in prev && idx[k] == prev[k];
    assert prefix[prev[k]] == updates[prev[k]];
    if j < n {
      assert prefix[j] == updates[j];
      LatestNotExceededLater(prefix, cmp, k, j);
    }
  }

  /** When LessThan is a strict order, no valid version of a package in the
      input is greater than the one kept for it. */
  lemma {:induction false} LatestIsMaximal(updates: seq<UpdatePackage>, cmp: VersionComparer, k: string, j: nat)
    requires StrictOrder(cmp.lessThan)
    requires k in LatestIndex(updates, cmp) && j < |updates|
    requires updates[j].name == k && cmp.isValid(updates[j].fixedVersion)
    ensures !cmp.lessThan(updates[LatestIndex(updates, cmp)[k]].fixedVersion, updates[j].fixedVersion)
    decreases |updates|
  {
    var n := |updates| - 1;
    var prefix := updates[..n];
    var idx := LatestIndex(updates, cmp);
    var prev := LatestIndex(prefix, cmp);
    var kept := updates[idx[k]].fixedVersion;
    if j == n {
      if idx[k] != n {
        assert idx[k] == prev[k] && prefix[prev[k]] == updates[prev[k]];
      }
    } else {
      assert prefix[j] == updates[j];
      LatestKeys(prefix, cmp);
      assert k in ValidNames(prefix, cmp);
      LatestIsMaximal(prefix, cmp, k, j);
      var stored := prefix[prev[k]].fixedVersion;
      if idx[k] == n {
        // the last entry replaced `stored`, so lessThan(stored, kept)
        assert cmp.lessThan(stored, kept);
      } else {
        assert idx[k] == prev[k];
      }
    }
  }

  /** When LessThan is a strict weak order, every earlier entry of the same
      name is strictly older than the kept one: among equal versions the
      first one seen is kept. */
  lemma {:induction false} LatestIsFirstAmongEquals(updates: seq<UpdatePackage>, cmp: VersionComparer, k: string, j: nat)
    requires StrictWeakOrder(cmp.lessThan)
    requires k in LatestIndex(updates, cmp) && j < LatestIndex(updates, cmp)[k]
    requires updates[j].name == k && cmp.isValid(updates[j].fixedVersion)
    ensures cmp.lessThan(updates[j].fixedVersion, updates[LatestIndex(updates, cmp)[k]].fixedVersion)
    decreases |updates|
  {
    var n := |updates| - 1;
    var prefix := updates[..n];
    var idx := LatestIndex(updates, cmp);
    var prev := LatestIndex(prefix, cmp);
    assert prefix[j] == updates[j];
    if idx[k] == n {
      LatestKeys(prefix, cmp);
      assert k in ValidNames(prefix, cmp);
      LatestIsMaximal(prefix, cmp, k, j);
      var stored := prefix[prev[k]].fixedVersion;
      var x := updates[j].fixedVersion;
      assert cmp.lessThan(stored, updates[n].fixedVersion);
      assert cmp.lessThan(stored, x) || cmp.lessThan(x, updates[n].fixedVersion);
    } else {
      assert idx[k] == prev[k] && prefix[prev[k]] == updates[prev[k]];
      LatestIsFirstAmongEquals(prefix, cmp, k, j);
    }
  }

  /** Each invalid FixedVersion contributes exactly one error, naming that
      version and package, and nothing else does. */
  lemma OneErrorPerInvalidEntry(updates: seq<UpdatePackage>, cmp: VersionComparer)
    ensures var errs := InvalidVersionErrors(updates, cmp);
      && |errs| == |set i | 0 <= i < |updates| && !cmp.isValid(updates[i].fixedVersion)|
      && (forall e :: e in errs <==> exists i :: 0 <= i < |updates| && !cmp.isValid(updates[i].fixedVersion)
                                               && e == InvalidVersion(updates[i].fixedVersion, updates[i].name))
  {
    InvalidErrorCount(updates, cmp);
    InvalidErrorMembers(updates, cmp);
  }

  lemma {:induction false} InvalidErrorCount(updates: seq<UpdatePackage>, cmp: VersionComparer)
    ensures |InvalidVersionErrors(updates, cmp)| == |set i | 0 <= i < |updates| && !cmp.isValid(updates[i].fixedVersion)|
    decreases |updates|
  {
    if updates != [] {
      var n := |updates| - 1;
      var prefix := updates[..n];
      InvalidErrorCount(prefix, cmp);
      var before := set i | 0 <= i < n && !cmp.isValid(prefix[i].fixedVersion);
      var after := set i | 0 <= i < |updates| && !cmp.isValid(updates[i].fixedVersion);
      assert forall i :: 0 <= i < n ==> prefix[i] == updates[i];
      if cmp.isValid(updates[n].fixedVersion) {
        assert after == before;
      } else {
        assert after == before + {n};
        assert n !in before;
      }
    }
  }

  lemma {:induction false} InvalidErrorMembers(updates: seq<UpdatePackage>, cmp: VersionComparer)
    ensures forall e :: e in InvalidVersionErrors(updates, cmp) <==>
      exists i :: 0 <= i < |updates| && !cmp.isValid(updates[i].fixedVersion)
                  && e == InvalidVersion(updates[i].fixedVersion, updates[i].name)
    decreases |updates|
  {
    if updates != [] {
      var n := |updates| - 1;
      var prefix := updates[..n];
      InvalidErrorMembers(prefix, cmp);
      var errs := InvalidVersionErrors(updates, cmp);
      var u := updates[n];
      var last := if cmp.isValid(u.fixedVersion) then [] else [InvalidVersion(u.fixedVersion, u.name)];
      assert errs == InvalidVersionErrors(prefix, cmp) + last;
      forall e
        ensures e in errs <==> exists i :: 0 <= i < |updates| && !cmp.isValid(updates[i].fixedVersion)
                                           && e == InvalidVersion(updates[i].fixedVersion, updates[i].name)
      {
        if e in InvalidVersionErrors(prefix, cmp) {
          var i :| 0 <= i < |prefix| && !cmp.isValid(prefix[i].fixedVersion)
                   && e == InvalidVersion(prefix[i].fixedVersion, prefix[i].name);
          assert prefix[i] == updates[i];
        }
        if exists i :: 0 <= i < |updates| && !cmp.isValid(updates[i].fixedVersion)
                       && e == InvalidVersion(updates[i].fixedVersion, updates[i].name) {
          var i :| 0 <= i < |updates| && !cmp.isValid(updates[i].fixedVersion)
                   && e == InvalidVersion(updates[i].fixedVersion, updates[i].name);
          if i < n {
            assert prefix[i] == updates[i];
          }
        }
      }
    }
  }

  // ---------------------------------------------------------------------
  // GetValidatedUpdatesMap

  /** What is known about the update of one package: the staged file chosen
      for it ("" while none) and the version it must reach. */
  datatype UpdatePackageInfo = UpdatePackageInfo(filename: string, version: string)

  type UpdateMap = map<string, UpdatePackageInfo>

  /** Reads a package's name and version from a staged file's name. */
  datatype PackageInfoReader = PackageInfoReader(
    getVersion: string -> Result<string, Error>,
    getName: string -> Result<string, Error>)

  /** The table GetValidatedUpdatesMap starts from: one entry per update
      name, with no file yet and the FixedVersion of the last update of
      that name. */
  function InitialUpdateMap(updates: seq<UpdatePackage>): (m: UpdateMap)
    ensures forall i :: 0 <= i < |updates| ==> updates[i].name in m
    ensures forall k :: k in m ==> m[k].filename == ""
    decreases |updates|
  {
    if updates == [] then map[]
    else
      var n := |updates| - 1;
      var prev := InitialUpdateMap(updates[..n]);
      assert forall i :: 0 <= i < n ==> updates[..n][i] == updates[i];
      prev[updates[n].name := UpdatePackageInfo("", updates[n].fixedVersion)]
  }

  /** The table has exactly one key per update name. */
  lemma {:induction false} InitialMapKeys(updates: seq<UpdatePackage>)
    ensures InitialUpdateMap(updates).Keys == set i | 0 <= i < |updates| :: updates[i].name
    decreases |updates|
  {
    if updates != [] {
      var n := |updates| - 1;
      InitialMapKeys(updates[..n]);
      assert forall i :: 0 <= i < n ==> updates[..n][i] == updates[i];
      assert (set i | 0 <= i < |updates| :: updates[i].name)
          == (set i | 0 <= i < n :: updates[..n][i].name) + {updates[n].name};
    }
  }

  /** What happens to one staged file. */
  datatype Verdict =
    | NameFailed(e: Error)
    | VersionFailed(e: Error)
    | Invalid(name: string, version: string)
    | Unexpected
    | TooLow(name: string, version: string, required: string)
    | Accepted(name: string, version: string)
  {
    predicate Fails()
    {
      NameFailed? || VersionFailed? || Invalid? || TooLow?
    }

    predicate AcceptedFor(pkg: string)
    {
      Accepted? && name == pkg
    }

    function AsError(): Error
      requires Fails()
    {
      match this
      case NameFailed(e) => e
      case VersionFailed(e) => e
      case Invalid(name, version) => InvalidVersion(version, name)
      case TooLow(name, version, required) => VersionTooLow(name, version, required)
    }
  }

  /** The verdict on a staged file against the table of intended updates. */
  function Classify(file: string, m: UpdateMap, cmp: VersionComparer, reader: PackageInfoReader): (v: Verdict)
    ensures v.Accepted? ==> v.name in m && cmp.isValid(v.version) && !cmp.lessThan(v.version, m[v.name].version)
    ensures v.TooLow? ==> v.name in m && v.required == m[v.name].version && cmp.lessThan(v.version, v.required)
  {
    match reader.getName(file)
    case Err(e) => NameFailed(e)
    case Ok(name) =>
      match reader.getVersion(file)
      case Err(e) => VersionFailed(e)
      case Ok(version) =>
        if !cmp.isValid(version) then Invalid(name, version)
        else if name !in m then Unexpected
        else if cmp.lessThan(version, m[name].version) then TooLow(name, version, m[name].version)
        else Accepted(name, version)
  }

  /** The errors in a multierror under construction; a nil one has none. */
  function ErrorsSoFar(errs: Option<seq<Error>>): seq<Error>
  {
    if errs.Some? then errs.value else []
  }

  /** multierror.Append of one error to a multierror under construction
      (None while it is nil): the causes of a multierror are spliced in one
      by one, so an empty one adds nothing, and any other error is added as
      it is. The result is never nil, whatever was added. */
  function MultiAppend(errs: Option<seq<Error>>, e: Error): (r: Option<seq<Error>>)
    ensures r.Some? && ErrorsSoFar(errs) <= r.value
    ensures !e.Multi? ==> r.value == ErrorsSoFar(errs) + [e]
    ensures e.Multi? ==> r.value == ErrorsSoFar(errs) + e.causes
  {
    Some(ErrorsSoFar(errs) + (if e.Multi? then e.causes else [e]))
  }

  /** ErrorOrNil of a non-nil multierror: no error when it holds none. */
  function ErrorOrNil(errs: seq<Error>): (r: Option<Error>)
    ensures r.None? <==> errs == []
    ensures r.Some? ==> r.value == Multi(errs)
  {
    if errs == [] then None else Some(Multi(errs))
  }

  /** The multierror a scan over `files` builds: nil until a file fails,
      then each failing file's error appended in order. */
  function StagingErrors(files: seq<string>, m: UpdateMap, cmp: VersionComparer, reader: PackageInfoReader): Option<seq<Error>>
    decreases |files|
  {
    if files == [] then None
    else
      var n := |files| - 1;
      var v := Classify(files[n], m, cmp, reader);
      var r := StagingErrors(files[..n], m, cmp, reader);
      if v.Fails() then MultiAppend(r, v.AsError()) else r
  }

  /** The files of `files` that the scan leaves in place. */
  function Kept(files: seq<string>, m: UpdateMap, cmp: VersionComparer, reader: PackageInfoReader): seq<string>
    decreases |files|
  {
    if files == [] then []
    else
      var n := |files| - 1;
      Kept(files[..n], m, cmp, reader) + (if Classify(files[n], m, cmp, reader).Unexpected? then [] else [files[n]])
  }

  /** The table after a scan over `files`: each accepted file is recorded
      against its package, a later one replacing an earlier one. */
  function Resolve(files: seq<string>, m: UpdateMap, cmp: VersionComparer, reader: PackageInfoReader): (r: UpdateMap)
    ensures r.Keys == m.Keys
    ensures forall k :: k in r ==> r[k].version == m[k].version
    decreases |files|
  {
    if files == [] then m
    else
      var n := |files| - 1;
      var r := Resolve(files[..n], m, cmp, reader);
      match Classify(files[n], m, cmp, reader)
      case Accepted(name, _) => r[name := r[name].(filename := files[n])]
      case _ => r
  }

  function Without(s: seq<string>, x: string): (r: seq<string>)
    ensures forall y :: y in r <==> y in s && y != x
  {
    if s == [] then [] else (if s[0] == x then [] else [s[0]]) + Without(s[1..], x)
  }

  ghost predicate Distinct(s: seq<string>)
  {
    forall i, j :: 0 <= i < j < |s| ==> s[i] != s[j]
  }

  lemma {:induction false} WithoutDistinct(a: seq<string>, x: string, b: seq<string>)
    requires x !in a && x !in b
    ensures Without(a + ([x] + b), x) == a + b
    decreases |a|
  {
    if a == [] {
      assert (a + ([x] + b))[1..] == b;
      WithoutAbsent(b, x);
    } else {
      assert (a + ([x] + b))[1..] == a[1..] + ([x] + b);
      WithoutDistinct(a[1..], x, b);
    }
  }

  lemma DistinctMiddle(a: seq<string>, x: string, b: seq<string>)
    requires Distinct(a + ([x] + b))
    ensures x !in a && x !in b
  {
    var s := a + ([x] + b);
    assert s[|a|] == x;
    forall i | 0 <= i < |a| ensures a[i] != x { assert s[i] == a[i]; }
    forall i | 0 <= i < |b| ensures b[i] != x { assert s[|a| + 1 + i] == b[i]; }
  }

  lemma {:induction false} WithoutAbsent(s: seq<string>, x: string)
    requires x !in s
    ensures Without(s, x) == s
    decreases |s|
  {
    if s != [] {
      WithoutAbsent(s[1..], x);
    }
  }

  /** The staging directory downloaded update files are placed in. `files`
      lists its entries as os.ReadDir returns them, which in Go is sorted by
      file name; the model allows any order, so with Go's order the "last"
      accepted file of a package is the one with the greatest name.
      `readable` says whether os.ReadDir can read it at all. */
  class StagingDirectory {
    const readable: bool
    var files: seq<string>

    ghost predicate Valid()
      reads this
    {
      Distinct(files)
    }

    constructor (readable: bool, files: seq<string>)
      requires Distinct(files)
      ensures Valid() && this.readable == readable && this.files == files
    {
      this.readable := readable;
      this.files := files;
    }

    /** os.Remove of one entry. */
    method Remove(name: string)
      requires Valid()
      modifies this
      ensures Valid()
      ensures files == Without(old(files), name)
    {
      files := Without(files, name);
      forall i, j | 0 <= i < j < |files|
        ensures files[i] != files[j]
      {
        WithoutKeepsDistinct(old(files), name, i, j);
      }
    }
  }

  lemma {:induction false} WithoutKeepsDistinct(s: seq<string>, x: string, i: nat, j: nat)
    requires Distinct(s) && i < j < |Without(s, x)|
    ensures Without(s, x)[i] != Without(s, x)[j]
    decreases |s|
  {
    var r := Without(s, x);
    var tail := Without(s[1..], x);
    assert Distinct(s[1..]);
    if s[0] == x {
      assert r == tail;
      WithoutKeepsDistinct(s[1..], x, i, j);
    } else {
      assert r == [s[0]] + tail;
      if i == 0 {
        assert r[j] == tail[j - 1] && tail[j - 1] in s[1..];
      } else {
        WithoutKeepsDistinct(s[1..], x, i - 1, j - 1);
      }
    }
  }

  lemma ScanStep(files: seq<string>, i: nat, m: UpdateMap, cmp: VersionComparer, reader: PackageInfoReader)
    requires i < |files|
    ensures var v := Classify(files[i], m, cmp, reader);
      && StagingErrors(files[..i + 1], m, cmp, reader)
           == (var r := StagingErrors(files[..i], m, cmp, reader);
               if v.Fails() then MultiAppend(r, v.AsError()) else r)
      && Kept(files[..i + 1], m, cmp, reader)
           == Kept(files[..i], m, cmp, reader) + (if v.Unexpected? then [] else [files[i]])
      && Resolve(files[..i + 1], m, cmp, reader)
           == (var r := Resolve(files[..i], m, cmp, reader);
               if v.Accepted? then r[v.name := r[v.name].(filename := files[i])] else r)
  {
    assert files[..i + 1][..i] == files[..i];
  }

  lemma {:induction false} KeptWithin(files: seq<string>, m: UpdateMap, cmp: VersionComparer, reader: PackageInfoReader)
    ensures forall f :: f in Kept(files, m, cmp, reader) ==> f in files
    decreases |files|
  {
    if files != [] {
      var n := |files| - 1;
      KeptWithin(files[..n], m, cmp, reader);
      assert forall f :: f in files[..n] ==> f in files;
    }
  }

  /** One step of the scan as seen on the directory listing: the current
      file is dropped from it exactly when its verdict is Unexpected: its
      name and version read, its version is valid and its package is not
      wanted. */
  lemma KeptAdvance(files: seq<string>, i: nat, m: UpdateMap, cmp: VersionComparer, reader: PackageInfoReader)
    requires i < |files|
    ensures var before := Kept(files[..i], m, cmp, reader) + files[i..];
      var after := Kept(files[..i + 1], m, cmp, reader) + files[i + 1..];
      && (!Classify(files[i], m, cmp, reader).Unexpected? ==> after == before)
      && (Classify(files[i], m, cmp, reader).Unexpected? && Distinct(before) ==> after == Without(before, files[i]))
  {
    var kept := Kept(files[..i], m, cmp, reader);
    ScanStep(files, i, m, cmp, reader);
    assert files[i..] == [files[i]] + files[i + 1..];
    if Classify(files[i], m, cmp, reader).Unexpected? && Distinct(kept + files[i..]) {
      DistinctMiddle(kept, files[i], files[i + 1..]);
      WithoutDistinct(kept, files[i], files[i + 1..]);
    }
  }

  /** One iteration of ScanStaging keeps its loop invariant. */
  lemma ScanAdvance(files: seq<string>, i: nat, m0: UpdateMap, cmp: VersionComparer, reader: PackageInfoReader,
                    kept: seq<string>, m: UpdateMap, errs: Option<seq<Error>>,
                    kept': seq<string>, m': UpdateMap, errs': Option<seq<Error>>)
    requires i < |files| && Distinct(kept)
    requires kept == Kept(files[..i], m0, cmp, reader) + files[i..]
    requires m == Resolve(files[..i], m0, cmp, reader)
    requires errs == StagingErrors(files[..i], m0, cmp, reader)
    requires var v := Classify(files[i], m0, cmp, reader);
      && errs' == (if v.Fails() then MultiAppend(errs, v.AsError()) else errs)
      && m' == (if v.Accepted? then m[v.name := m[v.name].(filename := files[i])] else m)
      && kept' == (if v.Unexpected? then Without(kept, files[i]) else kept)
    ensures kept' == Kept(files[..i + 1], m0, cmp, reader) + files[i + 1..]
    ensures m' == Resolve(files[..i + 1], m0, cmp, reader)
    ensures errs' == StagingErrors(files[..i + 1], m0, cmp, reader)
  {
    ScanStep(files, i, m0, cmp, reader);
    KeptAdvance(files, i, m0, cmp, reader);
  }

  /** The body of the scan for one file: the table `m` has the keys and
      versions of `m0`, so its checks give the verdict on `m0`. */
  method ScanFile(file: string, m0: UpdateMap, m: UpdateMap, errs: Option<seq<Error>>, cmp: VersionComparer,
                  reader: PackageInfoReader, staging: StagingDirectory)
    returns (m': UpdateMap, errs': Option<seq<Error>>)
    requires staging.Valid()
    requires m.Keys == m0.Keys && forall k :: k in m ==> m[k].version == m0[k].version
    modifies staging
    ensures staging.Valid()
    ensures var v := Classify(file, m0, cmp, reader);
      && errs' == (if v.Fails() then MultiAppend(errs, v.AsError()) else errs)
      && m' == (if v.Accepted? then m[v.name := m[v.name].(filename := file)] else m)
      && staging.files == (if v.Unexpected? then Without(old(staging.files), file) else old(staging.files))
  {
    ghost var verdict := Classify(file, m0, cmp, reader);
    m', errs' := m, errs;
    var name := reader.getName(file);
    if name.Err? {
      errs' := MultiAppend(errs, name.error);
      return;
    }
    var version := reader.getVersion(file);
    if version.Err? {
      errs' := MultiAppend(errs, version.error);
      return;
    }
    if !cmp.isValid(version.value) {
      errs' := MultiAppend(errs, InvalidVersion(version.value, name.value));
      return;
    }
    if name.value !in m {
      assert verdict.Unexpected?;
      staging.Remove(file);
      return;
    }
    var p := m[name.value];
    if cmp.lessThan(version.value, p.version) {
      assert verdict == TooLow(name.value, version.value, p.version);
      errs' := MultiAppend(errs, VersionTooLow(name.value, version.value, p.version));
      return;
    }
    assert verdict == Accepted(name.value, version.value);
    m' := m[name.value := p.(filename := file)];
  }

  /** The loop of GetValidatedUpdatesMap over the staging directory's
      listing `files`: it deletes the files whose name and version read,
      whose version is valid and whose package is not wanted, collects
      the errors and records accepted files in the table. */
  method ScanStaging(files: seq<string>, m0: UpdateMap, cmp: VersionComparer, reader: PackageInfoReader,
                     staging: StagingDirectory)
    returns (m: UpdateMap, allErrors: Option<seq<Error>>)
    requires staging.Valid() && staging.files == files
    modifies staging
    ensures staging.Valid()
    ensures staging.files == Kept(files, m0, cmp, reader)
    ensures allErrors == StagingErrors(files, m0, cmp, reader)
    ensures m == Resolve(files, m0, cmp, reader)
  {
    m := m0;
    allErrors := None;
    for i := 0 to |files|
      invariant staging.Valid()
      invariant allErrors == StagingErrors(files[..i], m0, cmp, reader)
      invariant m == Resolve(files[..i], m0, cmp, reader)
      invariant staging.files == Kept(files[..i], m0, cmp, reader) + files[i..]
    {
      ghost var kept := staging.files;
      var m', errs' := ScanFile(files[i], m0, m, allErrors, cmp, reader, staging);
      ScanAdvance(files, i, m0, cmp, reader, kept, m, allErrors, staging.files, m', errs');
      m, allErrors := m', errs';
    }
    assert files[..|files|] == files;
  }

  /** Cross-checks the staged update files against the intended updates.
      Files whose name and version read, whose version is valid and whose
      package is not among the updates are deleted; every
      file whose name or version cannot be read, whose version is invalid or
      whose version is older than required has its error appended to a
      multierror (a multierror's causes one by one) and the scan moves on.
      Once any file has failed the table is nil, and the error is the
      multierror, or nil when it holds no cause. An empty staging directory
      yields neither a table nor an error. */
  method GetValidatedUpdatesMap(updates: seq<UpdatePackage>, cmp: VersionComparer, reader: PackageInfoReader,
                                staging: StagingDirectory)
    returns (um: Option<UpdateMap>, err: Option<Error>)
    requires staging.Valid()
    modifies staging
    ensures staging.Valid()
    ensures !staging.readable ==>
      um == None && err == Some(Wrapped("failed to read directory", ReadDirFailed)) && staging.files == old(staging.files)
    ensures staging.readable && old(staging.files) == [] ==>
      um == None && err == None && staging.files == []
    ensures staging.readable && old(staging.files) != [] ==>
      var m := InitialUpdateMap(updates);
      var errs := StagingErrors(old(staging.files), m, cmp, reader);
      && staging.files == Kept(old(staging.files), m, cmp, reader)
      && (errs.None? ==> um == Some(Resolve(old(staging.files), m, cmp, reader)) && err == None)
      && (errs.Some? ==> um == None && err == ErrorOrNil(errs.value))
  {
    var m: UpdateMap := map[];
    for i := 0 to |updates|
      invariant m == InitialUpdateMap(updates[..i])
    {
      assert updates[..i + 1][..i] == updates[..i];
      m := m[updates[i].name := UpdatePackageInfo("", updates[i].fixedVersion)];
    }
    assert updates[..|updates|] == updates;
    ghost var m0 := m;

    if !staging.readable {
      return None, Some(Wrapped("failed to read directory", ReadDirFailed));
    }
    var files := staging.files;
    if |files| == 0 {
      return None, None;
    }

    var allErrors;
    m, allErrors := ScanStaging(files, m, cmp, reader, staging);

    if allErrors.Some? {
      return None, ErrorOrNil(allErrors.value);
    }
    return Some(m), None;
  }

  /** The required version of a package is the FixedVersion of the last
      update of that name (the table's keys are the update names, as
      InitialUpdateMap states). */
  lemma {:induction false} InitialMapLastWins(updates: seq<UpdatePackage>)
    ensures var m := InitialUpdateMap(updates);
      forall i :: 0 <= i < |updates| && (forall j :: i < j < |updates| ==> updates[j].name != updates[i].name)
        ==> updates[i].name in m && m[updates[i].name].version == updates[i].fixedVersion
    decreases |updates|
  {
    if updates != [] {
      var n := |updates| - 1;
      var prefix := updates[..n];
      InitialMapLastWins(prefix);
      forall i | 0 <= i < n && (forall j :: i < j < |updates| ==> updates[j].name != updates[i].name)
        ensures updates[i].name in InitialUpdateMap(updates)
        ensures InitialUpdateMap(updates)[updates[i].name].version == updates[i].fixedVersion
      {
        assert updates[n].name != updates[i].name;
        assert prefix[i] == updates[i];
        assert forall j :: i < j < n ==> prefix[j] == updates[j];
      }
    }
  }

  /** A staged file is deleted exactly when its name and version can be
      read, its version is valid, and its name is not among the updates; in
      particular no file with an invalid version is ever deleted. */
  lemma {:induction false} DeletedFiles(files: seq<string>, m: UpdateMap, cmp: VersionComparer, reader: PackageInfoReader)
    ensures forall f :: f in files && f !in Kept(files, m, cmp, reader) ==>
      && reader.getName(f).Ok? && reader.getVersion(f).Ok?
      && cmp.isValid(reader.getVersion(f).value) && reader.getName(f).value !in m
    ensures forall f :: f in files && reader.getName(f).Ok? && reader.getVersion(f).Ok?
                        && cmp.isValid(reader.getVersion(f).value) && reader.getName(f).value !in m
                        ==> f !in Kept(files, m, cmp, reader)
    decreases |files|
  {
    if files != [] {
      var n := |files| - 1;
      DeletedFiles(files[..n], m, cmp, reader);
      assert files == files[..n] + [files[n]];
      KeptWithin(files[..n], m, cmp, reader);
    }
  }

  /** The positions of the listing whose file fails the checks. */
  ghost function FailingIndices(files: seq<string>, m: UpdateMap, cmp: VersionComparer, reader: PackageInfoReader): set<int>
  {
    set i | 0 <= i < |files| && Classify(files[i], m, cmp, reader).Fails()
  }

  lemma FailingIndicesStep(files: seq<string>, m: UpdateMap, cmp: VersionComparer, reader: PackageInfoReader)
    requires files != []
    ensures var n := |files| - 1;
      FailingIndices(files, m, cmp, reader)
        == FailingIndices(files[..n], m, cmp, reader)
           + (if Classify(files[n], m, cmp, reader).Fails() then {n} else {})
  {
    var n := |files| - 1;
    var prefix := files[..n];
    forall i | 0 <= i < n ensures prefix[i] == files[i] { }
  }

  /** The scan's multierror stays nil exactly when no file fails. When no
      reader error is itself a multierror, each failing file contributes
      exactly one error. */
  lemma {:induction false} OneErrorPerFailingFile(files: seq<string>, m: UpdateMap, cmp: VersionComparer, reader: PackageInfoReader)
    ensures StagingErrors(files, m, cmp, reader).None? <==>
              forall i :: 0 <= i < |files| ==> !Classify(files[i], m, cmp, reader).Fails()
    ensures (forall i :: 0 <= i < |files| && Classify(files[i], m, cmp, reader).Fails() ==>
               !Classify(files[i], m, cmp, reader).AsError().Multi?) ==>
              |ErrorsSoFar(StagingErrors(files, m, cmp, reader))| == |FailingIndices(files, m, cmp, reader)|
    decreases |files|
  {
    if files != [] {
      var n := |files| - 1;
      var prefix := files[..n];
      OneErrorPerFailingFile(prefix, m, cmp, reader);
      FailingIndicesStep(files, m, cmp, reader);
      assert n !in FailingIndices(prefix, m, cmp, reader);
      assert forall i :: 0 <= i < n ==> prefix[i] == files[i];
      var v := Classify(files[n], m, cmp, reader);
      if StagingErrors(files, m, cmp, reader).None? {
        assert !v.Fails();
      }
    }
  }

  /** A reader error that is an empty multierror fails its file without
      adding a cause: the scan's multierror is non-nil yet empty, so the
      table is nil and so is the error. */
  lemma EmptyReaderErrorIsNoError(file: string, m: UpdateMap, cmp: VersionComparer, reader: PackageInfoReader)
    requires reader.getName(file) == Err(Multi([]))
    ensures Classify(file, m, cmp, reader).Fails()
    ensures StagingErrors([file], m, cmp, reader) == Some([])
    ensures ErrorOrNil(ErrorsSoFar(StagingErrors([file], m, cmp, reader))) == None
  {
    assert [file][..0] == [];
  }

  /** The position of the last file of the listing accepted for package
      `k`, if there is one. */
  function LastAccepted(files: seq<string>, k: string, m: UpdateMap, cmp: VersionComparer, reader: PackageInfoReader): (r: Option<nat>)
    ensures r.Some? ==> r.value < |files| && Classify(files[r.value], m, cmp, reader).AcceptedFor(k)
                        && forall j :: r.value < j < |files| ==> !Classify(files[j], m, cmp, reader).AcceptedFor(k)
    ensures r.None? ==> forall j :: 0 <= j < |files| ==> !Classify(files[j], m, cmp, reader).AcceptedFor(k)
    decreases |files|
  {
    if files == [] then None
    else
      var n := |files| - 1;
      if Classify(files[n], m, cmp, reader).AcceptedFor(k) then Some(n)
      else
        var r := LastAccepted(files[..n], k, m, cmp, reader);
        assert forall j :: 0 <= j < n ==> files[..n][j] == files[j];
        r
  }

  /** After the scan, each package's file is the last staged file accepted
      for it (its version valid and not older than required), or is left
      as it was when no staged file was accepted for it. */
  lemma {:induction false} ResolvedFilenames(files: seq<string>, k: string, m: UpdateMap, cmp: VersionComparer, reader: PackageInfoReader)
    requires k in m
    ensures var last := LastAccepted(files, k, m, cmp, reader);
      Resolve(files, m, cmp, reader)[k].filename == (if last.Some? then files[last.value] else m[k].filename)
    decreases |files|
  {
    if files != [] {
      var n := |files| - 1;
      var prefix := files[..n];
      ResolvedFilenames(prefix, k, m, cmp, reader);
      var r := Resolve(prefix, m, cmp, reader);
      var v := Classify(files[n], m, cmp, reader);
      if v.AcceptedFor(k) {
        assert LastAccepted(files, k, m, cmp, reader) == Some(n);
        assert Resolve(files, m, cmp, reader)[k] == r[k].(filename := files[n]);
      } else {
        var last := LastAccepted(prefix, k, m, cmp, reader);
        assert LastAccepted(files, k, m, cmp, reader) == last;
        assert Resolve(files, m, cmp, reader)[k] == r[k];
        if last.Some? {
          assert prefix[last.value] == files[last.value];
        }
      }
    }
  }
}
