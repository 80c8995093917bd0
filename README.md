# copatcher core, modelled in Dafny

copatcher patches the vulnerable OS packages of a container image without a
full rebuild. This project models three parts of it, and proves properties of
each model:

- **The update reconciliation** shared by the package managers
  (`pkgmgr/pkgmgr.go`):
  - `GetPackageManager` picks a package manager from the image's OS family.
  - `GetUniqueLatestUpdates` reduces the requested updates to one entry per
    package, keeping the latest valid fixed version.
  - `GetValidatedUpdatesMap` cross-checks the staging directory of
    downloaded packages against the intended updates. It deletes the files
    whose name and version read, whose version is valid and whose package
    is not wanted, appends the error of each bad file to a
    multierror, and records the accepted file of each package.
- **The patch orchestration** (`patcher/patcher.go`, `patch`):
  - it parses the image reference and derives the output tag;
  - it builds the patched image name;
  - it makes sure the working folder exists;
  - it runs the fixed step sequence: report, BuildKit client, BuildKit
    configuration, package manager, install, solve to Docker. The first
    failure wins. Go's deferred cleanups (close the client, remove a working
    folder the run created) run on every exit, last registered first.
- **The filesystem and environment helpers** (`utils/utils.go`): `EnsurePath`,
  `IsNonEmptyFile`, `GetProxy` and `getEnvAny`.

## How the model is built

- **Files and modules.** There are four files, one module each:
  - `types.dfy` (`Types`): the shared value types, and `Option`/`Result` for
    Go's `(value, error)` returns.
  - `utils.dfy` (`Utils`).
  - `pkgmgr.dfy` (`PkgMgr`).
  - `patcher.dfy` (`Patcher`).
- **Errors.**
  - A multierror is `Multi(causes)`, with the causes in insertion order.
  - `multierror.Append` is `MultiAppend`. A nil multierror under
    construction is `None`. Appending a multierror splices in its causes,
    so an empty one adds nothing. `ErrorOrNil` turns an empty multierror
    into no error.
  - `errors.Wrap(e, msg)` is `Wrapped(msg, e)`.
- **The filesystem.**
  - It is a `map` from paths to nodes. A path is its sequence of components
    from the root. A node is `Dir(mode)` or `File(size)`.
  - The `FileSystem` class owns that map. `EnsurePath` and the patch run
    change it in place.
  - `os.MkdirAll` and `os.RemoveAll` are the functions `AfterMkdirAll` and
    `AfterRemoveAll`. An `os.MkdirAll` that the operating system refuses
    partway is `AfterRefusedMkdirAll`: the ancestors it made before the
    refusal stay.
- **The staging directory** is the `StagingDirectory` class. Its `files`
  field is the `os.ReadDir` listing, and `Remove` deletes from it in place.
  Go's listing is sorted by file name; the model allows any order, so with
  Go's order the "last accepted file" of a package (`ResolvedFilenames`) is
  the one with the greatest name.
- **The comparer and the reader.** `VersionComparer` is a record of
  functions, as Go's struct of functions is (pkgmgr/pkgmgr.go:41-44).
  `PackageInfoReader`, a Go interface (pkgmgr/pkgmgr.go:83-86), is modelled
  as a record of pure functions.
- **Each imperative operation is a method proved against a specification
  function**:
  - `GetUniqueLatestUpdates` against `LatestIndex`, `LatestVersions` and
    `InvalidVersionErrors`;
  - the staging scan against `Classify`, `StagingErrors`, `Kept` and
    `Resolve`;
  - `EnsurePath` against `EnsurePathSpec`;
  - the patch run against `PatchSpec`.
- **How a patch run is specified.**
  - `PatchSpec` uses `StepwiseRun`, a nested-conditional rendering of the Go
    control flow with the registered cleanups appended.
  - `ListedRun` is an independent reference definition: the seven calls and
    their outcomes as lists, cut at the first failure, followed by the
    registered cleanups.
  - The lemma `StepwiseIsListed` proves that the two agree.
- **Collaborators become outcomes.**
  - These collaborators are given as functions or outcomes in
    `Collaborators`:
    - reference parsing;
    - whether the operating system refuses to create a directory, and how
      many components `os.MkdirAll` got through first;
    - the report;
    - the BuildKit client;
    - the BuildKit configuration;
    - the package manager's installation;
    - the solve to Docker.
  - The environment is a `map<string, string>`.
- **Two behaviours of the code worth knowing.**
  - The unsupported-OS error carries no OS string (pkgmgr/pkgmgr.go:35).
    The model's error is a plain `UnsupportedOSType`.
  - A digest-only reference has no tag, so the run fails with "invalid
    tagged name" before any step (patcher/patcher.go:101-104).

## Model

| member | source | states |
|---|---|---|
| PkgMgr.GetPackageManager | pkgmgr/pkgmgr.go:30-37 | succeeds exactly for "debian" and "ubuntu", with the dpkg manager for the working folder; every other OS type gives the unsupported-OS error |
| PkgMgr.LatestIndex | pkgmgr/pkgmgr.go:48-58 | for every kept name, the kept entry is an entry of that name with a valid FixedVersion |
| PkgMgr.LatestVersions | pkgmgr/pkgmgr.go:48-58 | (no contract) the table of each name's latest valid FixedVersion, read off LatestIndex; LatestKeys, LatestIsMaximal and LatestIsFirstAmongEquals state its properties |
| PkgMgr.InvalidVersionErrors | pkgmgr/pkgmgr.go:59-63 | there are never more errors than entries |
| PkgMgr.LatestVersionsStep | pkgmgr/pkgmgr.go:51-58 | one scan step: an invalid version leaves the table alone; a new name is stored; a stored version is replaced only when it is LessThan the new one |
| PkgMgr.InvalidVersionErrorsStep | pkgmgr/pkgmgr.go:59-63 | one scan step appends one error exactly when the entry's version is invalid |
| PkgMgr.ScanUpdates | pkgmgr/pkgmgr.go:48-64 | the first loop yields the table of latest valid versions and the errors of the invalid entries, in order |
| PkgMgr.ListTable | pkgmgr/pkgmgr.go:70-73 | the second loop lists every key of the table once, with its version as FixedVersion and nothing else |
| PkgMgr.GetUniqueLatestUpdates | pkgmgr/pkgmgr.go:47-76 | with invalid entries and ignoreErrors unset, the result is an empty list and the multierror of every invalid entry, in order; otherwise there is no error and the output lists the latest-version table once per name, with an empty InstalledVersion |
| PkgMgr.ValidNamesStep | pkgmgr/pkgmgr.go:51-53 | the names with a valid version grow by the last entry's name exactly when its version is valid |
| PkgMgr.LatestKeys | pkgmgr/pkgmgr.go:48-58 | the output names are exactly the input names that have at least one valid FixedVersion |
| PkgMgr.LatestNotExceededLater | pkgmgr/pkgmgr.go:56-57 | for any comparer, no later valid entry of the same name is greater than the kept one |
| PkgMgr.LatestIsMaximal | pkgmgr/pkgmgr.go:51-58 | when LessThan is a strict order, no valid input version of a name is greater than the kept one |
| PkgMgr.LatestIsFirstAmongEquals | pkgmgr/pkgmgr.go:56-57 | when LessThan is a strict weak order, every earlier valid entry of the name is strictly older than the kept one, so among equal versions the first one seen is kept |
| PkgMgr.OneErrorPerInvalidEntry | pkgmgr/pkgmgr.go:59-63 | the errors correspond one to one with the invalid entries, and each names that entry's version and package |
| PkgMgr.InvalidErrorCount | pkgmgr/pkgmgr.go:59-63 | there are exactly as many errors as invalid entries |
| PkgMgr.InvalidErrorMembers | pkgmgr/pkgmgr.go:59-63 | an error is reported exactly when some entry has an invalid version, and it names that entry's version and package |
| PkgMgr.InitialUpdateMap | pkgmgr/pkgmgr.go:94-96 | every update name is a key, and no key has a file yet |
| PkgMgr.InitialMapKeys | pkgmgr/pkgmgr.go:94-96 | the keys are exactly the update names |
| PkgMgr.InitialMapLastWins | pkgmgr/pkgmgr.go:94-96 | each name's required version is the FixedVersion of the last update of that name |
| PkgMgr.Classify | pkgmgr/pkgmgr.go:110-135 | an accepted file's package is wanted and its version is valid and not LessThan the required one; a too-low file's version is LessThan the required one |
| PkgMgr.Resolve | pkgmgr/pkgmgr.go:135 | the scan never adds or drops a package, and never changes a required version |
| PkgMgr.MultiAppend | pkgmgr/pkgmgr.go:109-134 | multierror.Append of one error: the result is never nil, keeps the earlier errors, and adds a multierror's causes one by one or any other error as it is |
| PkgMgr.ErrorOrNil | pkgmgr/pkgmgr.go:138-140 | ErrorOrNil: no error exactly when the multierror holds none, else the multierror of its causes |
| PkgMgr.StagingErrors | pkgmgr/pkgmgr.go:109-136 | (no contract) the scan's multierror, nil until a file fails; OneErrorPerFailingFile and EmptyReaderErrorIsNoError state its properties |
| PkgMgr.Kept | pkgmgr/pkgmgr.go:125-129 | (no contract) the listing the scan leaves in place; DeletedFiles states which files go |
| PkgMgr.StagingDirectory.Remove | pkgmgr/pkgmgr.go:127 | os.Remove deletes exactly that entry, and the listing stays duplicate-free |
| PkgMgr.ScanStep | pkgmgr/pkgmgr.go:109-136 | one file of the scan appends its error if it fails, is dropped from the listing only when unexpected, and, when accepted, is recorded against its package |
| PkgMgr.KeptAdvance | pkgmgr/pkgmgr.go:125-129 | during the scan, the listing loses the current file exactly when its name and version read, its version is valid and its package is not wanted |
| PkgMgr.ScanFile | pkgmgr/pkgmgr.go:110-135 | one file of the loop: when it fails, its error is appended as multierror.Append does (a multierror's causes one by one); it is deleted exactly when its name and version read, its version is valid and its package is not wanted; an accepted file is recorded against its package |
| PkgMgr.ScanAdvance | pkgmgr/pkgmgr.go:109-136 | handling one more file carries the listing, the errors and the table from one prefix of the listing to the next |
| PkgMgr.ScanStaging | pkgmgr/pkgmgr.go:109-136 | the loop leaves the listing as Kept, its errors as StagingErrors and its table as Resolve of the whole listing |
| PkgMgr.GetValidatedUpdatesMap | pkgmgr/pkgmgr.go:91-143 | an unreadable directory gives (nil, wrapped error) and an empty one gives (nil, nil); otherwise, once any file has failed, the table is nil and the error is the multierror of what was appended, or nil when it holds no cause; with no failing file, the resolved table and no error; a file is deleted, either way, exactly when its name and version read, its version is valid and its package is not wanted |
| PkgMgr.DeletedFiles | pkgmgr/pkgmgr.go:125-129 | a file is deleted exactly when its name and version read, its version is valid and its package is not wanted; no file with an invalid version is ever deleted |
| PkgMgr.FailingIndicesStep | pkgmgr/pkgmgr.go:109-134 | the failing positions grow by the last position exactly when that file fails |
| PkgMgr.OneErrorPerFailingFile | pkgmgr/pkgmgr.go:109-134 | the scan's multierror stays nil exactly when no file fails; when no reader error is itself a multierror, it holds exactly one error per failing file |
| PkgMgr.EmptyReaderErrorIsNoError | pkgmgr/pkgmgr.go:110-114 | a file whose name reader returns an empty multierror fails without adding a cause, so the multierror is non-nil but empty and ErrorOrNil gives no error |
| PkgMgr.LastAccepted | pkgmgr/pkgmgr.go:135 | the position found is accepted for the package and no later one is; if none is found, no file is accepted for it |
| PkgMgr.ResolvedFilenames | pkgmgr/pkgmgr.go:125-135 | each package's file is the last staged file accepted for it (valid and not older than required), or stays empty |
| Utils.Perm | utils/utils.go:24 | the permission bits are the mode's low nine bits: below 512, and the mode itself when it has no higher bits |
| Utils.AfterMkdirAll | utils/utils.go:18 | the path exists afterwards; every entry is kept; every new entry is an ancestor of the path, or the path itself, with the given mode |
| Utils.AfterRefusedMkdirAll | utils/utils.go:18 | after a refused os.MkdirAll the path is still missing, every entry is kept, and every new entry is a proper ancestor of the path with the given mode |
| Utils.RefusedMkdirAllWellFormed | utils/utils.go:18 | a refused os.MkdirAll keeps every entry's ancestors directories |
| Utils.AfterRemoveAll | patcher/patcher.go:120-122 | exactly the path and everything below it disappear; the other entries are unchanged |
| Utils.MkdirAllWellFormed | utils/utils.go:18 | creating a path over directories keeps every entry's ancestors directories |
| Utils.RemoveAllWellFormed | patcher/patcher.go:120-122 | removing a subtree keeps every entry's ancestors directories |
| Utils.MkdirAllThenRemoveAll | utils/utils.go:15-19 | creating a missing directory and removing it again restores every earlier entry and leaves only newly created ancestors |
| Utils.FileSystem.RemoveAll | patcher/patcher.go:121 | the entries become those after os.RemoveAll |
| Utils.EnsurePathSpec | utils/utils.go:12-30 | the path is reported created exactly when it was missing and there is no error; with no error, the path is a directory afterwards |
| Utils.EnsurePath | utils/utils.go:12-30 | created, error and filesystem are those of the create-or-check decision on the filesystem before the call |
| Utils.EnsureMissingPath | utils/utils.go:15-19 | a missing path is reported created exactly when there is no error, which is exactly when os.MkdirAll is not refused; then it is a directory with the given mode, reached through directories. After a refusal the path is still missing, every earlier entry is unchanged, and the only new entries are ancestors made before the refusal |
| Utils.EnsureExistingPath | utils/utils.go:20-29 | an existing path is never reported created and nothing changes; a file gives ErrExist, a directory with other permission bits ErrPermission, and there is no error exactly for a matching directory |
| Utils.EnsurePathIdempotent | utils/utils.go:12-30 | after a successful call, a second call reports no error and nothing created |
| Utils.IsNonEmptyFile | utils/utils.go:32-41 | true exactly when the joined path is a file of positive size |
| Utils.Join | utils/utils.go:33 | the joined path is the components of the directory followed by those of the file |
| Utils.Getenv | utils/utils.go:56 | (no contract) os.Getenv: the variable's value, or "" when it is unset |
| Utils.GetEnvAny | utils/utils.go:54-62 | the result is "" exactly when every name's value is empty; otherwise it is the value of the first name whose value is not empty |
| Utils.GetProxy | utils/utils.go:43-52 | HTTPProxy and AllProxy come from HTTP_PROXY, HTTPSProxy from HTTPS_PROXY, NoProxy from NO_PROXY |
| Utils.GetProxyExamples | utils/utils_test.go:152-183 | the two environments of the proxy table test give the expected settings |
| Patcher.TagNameOnly | patcher/patcher.go:97-99 | a bare name gets the tag "latest"; any other reference is unchanged |
| Patcher.IsNameOnly | patcher/patcher.go:97 | (no contract) reference.IsNameOnly: the reference has neither a tag nor a digest |
| Patcher.SourceTag | patcher/patcher.go:97-104 | there is no tag exactly for a digest-only reference; otherwise it is the reference's tag, or "latest" for a bare name |
| Patcher.DeriveTag | patcher/patcher.go:106-113 | the tag is never empty; a configured tag is kept verbatim; otherwise it is "patched" for an empty source tag, else "<source tag>-patched" |
| Patcher.PatchedImageName | patcher/patcher.go:115 | the name is "<repository name>:<tag>", piece by piece |
| Patcher.PatchedImageNameSplits | patcher/patcher.go:115 | for a tag without a colon, the tag is exactly what follows the name's last colon |
| Patcher.TagDerivationExamples | patcher/patcher.go:97-113 | a bare name gives "latest-patched", a tagged one "<tag>-patched", a configured tag wins, and a digest-only reference has no tag |
| Patcher.DeriveTagStable | patcher/patcher.go:107-113 | deriving again with the derived tag configured gives it back: a second run adds no second suffix |
| Patcher.Calls | patcher/patcher.go:117-156 | a run has exactly seven calls |
| Patcher.ListedRun | patcher/patcher.go:117-156 | (no contract) the reference run: the calls up to the first failing one, that failure wrapped in its context message, then the registered cleanups; ListedTrace and NoStepAfterFailure state its properties |
| Patcher.StepwiseRun | patcher/patcher.go:117-164 | (no contract) the run as the nested Go control flow makes it; StepwiseIsListed proves it equal to ListedRun |
| Patcher.Outcomes | patcher/patcher.go:117-156 | there is one outcome per call |
| Patcher.FirstFailure | patcher/patcher.go:117-156 | every outcome before the index succeeds, and the outcome at it fails |
| Patcher.FirstFailureIs | patcher/patcher.go:117-156 | an index with only successes before it and a failure (or the end) at it is the first failure |
| Patcher.StepwiseIsListed | patcher/patcher.go:117-156 | the run as the Go code makes it equals the reference run: calls up to the first failure, then the registered cleanups; the error is the first failure wrapped in its step's context |
| Patcher.ListedEarlyFailure | patcher/patcher.go:117-133 | that agreement when the folder, the report or the client fails |
| Patcher.ListedAfterClient | patcher/patcher.go:135-156 | that agreement once the client exists |
| Patcher.ListedConfigOrManager | patcher/patcher.go:139-147 | that agreement when the build configuration or the package manager fails |
| Patcher.ListedInstallOrSolve | patcher/patcher.go:149-157 | that agreement when the installation fails, or once it succeeds |
| Patcher.ListedSolve | patcher/patcher.go:154-164 | that agreement for the last call: a failed solve or a successful run |
| Patcher.EarlyExitsChangeNothing | patcher/patcher.go:92-104 | an unparsable or untagged reference ends the run with its error before any step: no call, the filesystem and the configured tag unchanged |
| Patcher.PatchSpec | patcher/patcher.go:91-165 | (no contract) the whole patch: tag derivation, the two early exits, EnsurePath, the step run and the removal of a folder this run created; EarlyExitsChangeNothing, TagStable and WorkingFolderLifecycle state its properties |
| Patcher.TagStable | patcher/patcher.go:106-113 | a derived tag is non-empty, and a later run keeps it whatever its inputs |
| Patcher.ListedTrace | patcher/patcher.go:117-156 | the actions of a run are the calls up to and including the first failure, followed by the registered cleanups |
| Patcher.CutTrace | patcher/patcher.go:119-156 | in such a list, a call is present exactly when it is at or before the cut, the folder removal exactly when it was registered and then last, and the client close exactly when the client was created, just before the removal |
| Patcher.CleanupsOfRun | patcher/patcher.go:119-137 | the folder is removed exactly when this run created it, as the last action; the client is closed exactly when it was created, after every call and before the folder goes |
| Patcher.NoStepAfterFailure | patcher/patcher.go:125-156 | a call is made exactly when it comes at or before the first failing one |
| Patcher.WorkingFolderLifecycle | patcher/patcher.go:117-123 | the patcher removes the folder exactly when it was missing and this run created it. A pre-existing folder, and every earlier entry, are left as the patcher found them; the only new entries the patcher leaves are ancestors of the folder. Collaborators' own writes are outside the model |
| Patcher.Patcher.constructor | patcher/patcher.go:48-52 | the patcher holds the given image, tag and ignore-errors flag |
| Patcher.Patcher.Patch | patcher/patcher.go:91-165 | the new tag, error, calls made and filesystem are those of the patch specification on the state before the call |
| Patcher.Patcher.RunSteps | patcher/patcher.go:117-164 | from the working folder on, the error, the calls and the filesystem are those of the step-by-step run, with the folder removed when this run created it |
| Patcher.Unwind | patcher/patcher.go:120-137 | the deferred cleanups are appended in stack order, and the folder is removed if its cleanup is among them |

## Left out

- **Timeout and cancellation.** `patcher.Run` (patcher/patcher.go:72-88)
  runs the patch in a goroutine under a deadline and sleeps one second on
  timeout. This is concurrency and wall-clock time.
- **Report lifecycle.** `Init` and `Deinit` (patcher/patcher.go:58-70) only
  forward to the report collaborator.
- **BuildKit.** The client, its configuration, the solve to Docker and the
  dpkg package manager's installation are outcomes only. The BuildKit
  configuration value that `GetPackageManager` receives is not modelled.
  `PackageManager` carries only the working folder.
  - The package manager is handed the working folder
    (patcher/patcher.go:144). What it, or any other collaborator, writes
    there or deletes is not modelled. `WorkingFolderLifecycle` speaks only
    of what the patcher itself creates and removes.
- **PackageManager.GetPackageType.** It is an interface method with no
  logic in this file.
- **The loop after the solve.** The loop at patcher/patcher.go:158-162 has
  an empty body, so it is not modelled. For the same reason the
  failed-package list returned by `InstallUpdates` is not modelled.
- **Cleanup errors.** Go ignores the errors of the deferred `os.RemoveAll`,
  of `Close`, and of `os.Remove` in the staging scan, and so does the model:
  those calls always succeed there.
- **Path handling.**
  - There is no path cleaning (`..`, repeated separators).
  - There is no umask. In Go a new directory's mode is `perm` with the
    umask's bits cleared. So `EnsurePathIdempotent` holds in Go only when
    the umask clears no bit of `perm`. For example, 0o744 under umask 077
    gives 0o700, and the second call then returns `ErrPermission`.
  - `filepath.Join` is concatenation of component sequences.
  - The working folder `/tmp/copatcher` is the path `["tmp", "copatcher"]`.
- **Why os.MkdirAll fails.** Whether `os.MkdirAll` is refused, and how far
  it got, is a parameter (`mkdirRefusal`). The operating system's reason is
  not modelled, and the error is `MkdirFailed`.
- **Utils.EnsurePath: requires NoFileAbove.** `os.Stat` can fail with an
  error other than "does not exist". The Go code then dereferences a nil
  `FileInfo` (utils/utils.go:21).
  - The model's `os.Stat` never fails that way: a path is either present
    or missing.
  - The one such failure its filesystem can express is a file above the
    path ("not a directory"). The model excludes that input instead of
    modelling the panic.
  - Other such failures are not modelled at all: an ancestor without
    search permission (EACCES), a symbolic-link loop (ELOOP), and a name
    that is too long (ENAMETOOLONG).
- **Utils.IsNonEmptyFile: requires NoFileAbove** for the same reason
  (utils/utils.go:40). The other `os.Stat` failures are not modelled here
  either.
- **Error messages.**
  - Error texts produced with `fmt.Errorf` are structured error values
    (`InvalidVersion`, `VersionTooLow`).
  - The error of `os.ReadDir` is the single abstract value `ReadDirFailed`.
  - The reference parser's error is whatever `Error` the collaborator
    returns.
- **Map iteration order.** The output order of `GetUniqueLatestUpdates` is
  Go's random map order. The model picks the names in an arbitrary order,
  so its contract says nothing about that order.
