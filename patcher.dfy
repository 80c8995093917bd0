/** Patch orchestration (patcher/patcher.go, `patch`).

    A run resolves the image reference, derives the output tag, makes sure
    the working folder exists, and then runs a fixed sequence of steps:
    read the report, create a BuildKit client, initialise the BuildKit
    configuration, pick a package manager, install the updates, and solve
    the patched image to Docker. The first failing step ends the run with
    its error wrapped in a context message. Cleanup registered with Go's
    `defer` (closing the client, removing a working folder the run
    created) runs on every exit, last registered first. */
module Patcher {
  import opened Types
  import opened Utils
  import PkgMgr

  /** DefaultFolder, "/tmp/copatcher", as path components. */
  const DefaultFolder: Path := ["tmp", "copatcher"]

  /** DefaultPerm, 0o744. */
  const DefaultPerm: nat := 484

  const DefaultTag: string := "patched"

  /** The tag reference.TagNameOnly gives a bare repository name. */
  const LatestTag: string := "latest"

  // ---------------------------------------------------------------------
  // Image references and tags

  /** A parsed Docker reference: repository name, optional tag, optional
      digest. */
  datatype Reference = Reference(name: string, tag: Option<string>, digest: Option<string>)

  /** reference.IsNameOnly: neither a tag nor a digest. */
  predicate IsNameOnly(r: Reference)
  {
    r.tag.None? && r.digest.None?
  }

  /** reference.TagNameOnly: a bare name gets the tag "latest"; any other
      reference is returned as it is. */
  function TagNameOnly(r: Reference): (t: Reference)
    ensures t.name == r.name && t.digest == r.digest
    ensures IsNameOnly(r) ==> t.tag == Some(LatestTag)
    ensures !IsNameOnly(r) ==> t == r
  {
    if IsNameOnly(r) then r.(tag := Some(LatestTag)) else r
  }

  /** The tag of the reference once a bare name has been defaulted, or None
      when the reference is still untagged (it carries only a digest). */
  function SourceTag(r: Reference): (t: Option<string>)
    ensures t.None? <==> r.tag.None? && r.digest.Some?
    ensures r.tag.Some? ==> t == r.tag
    ensures IsNameOnly(r) ==> t == Some(LatestTag)
  {
    (if IsNameOnly(r) then TagNameOnly(r) else r).tag
  }

  /** The tag the patched image gets: a configured tag is kept as it is;
      otherwise it is "<source tag>-patched", or "patched" when the source
      tag is empty. */
  function DeriveTag(cfgTag: string, srcTag: string): (t: string)
    ensures t != ""
    ensures cfgTag != "" ==> t == cfgTag
    ensures cfgTag == "" && srcTag == "" ==> t == DefaultTag
    ensures cfgTag == "" && srcTag != "" ==>
      && |t| == |srcTag| + 1 + |DefaultTag|
      && t[..|srcTag|] == srcTag && t[|srcTag|] == '-' && t[|srcTag| + 1..] == DefaultTag
  {
    if cfgTag != "" then cfgTag
    else if srcTag == "" then DefaultTag
    else srcTag + "-" + DefaultTag
  }

  /** "<repository name>:<tag>" */
  function PatchedImageName(name: string, tag: string): (r: string)
    ensures |r| == |name| + 1 + |tag|
    ensures r[..|name|] == name && r[|name|] == ':' && r[|name| + 1..] == tag
  {
    name + ":" + tag
  }

  /** When the tag holds no colon, the tag is exactly what follows the last
      colon of the patched image name, so the name can be split back. */
  lemma PatchedImageNameSplits(name: string, tag: string)
    requires ':' !in tag
    ensures var r := PatchedImageName(name, tag);
      r[|name|] == ':' && forall j :: |name| < j < |r| ==> r[j] != ':'
  {
    var r := PatchedImageName(name, tag);
    forall j | |name| < j < |r| ensures r[j] != ':' {
      assert r[j] == tag[j - |name| - 1];
    }
  }

  /** The examples of tag derivation: a bare name is patched as
      "latest-patched", a tagged one as "<tag>-patched", and a configured
      tag wins. */
  lemma TagDerivationExamples()
    ensures DeriveTag("", SourceTag(Reference("docker.io/library/nginx", None, None)).value) == "latest-patched"
    ensures DeriveTag("", SourceTag(Reference("docker.io/library/nginx", Some("1.21.6"), None)).value) == "1.21.6-patched"
    ensures DeriveTag("custom", SourceTag(Reference("docker.io/library/nginx", Some("1.21.6"), None)).value) == "custom"
    ensures SourceTag(Reference("docker.io/library/nginx", None, Some("sha256:00"))).None?
  {
  }

  /** A derived tag is never empty, so deriving again with it configured
      gives it back unchanged: a second run adds no second suffix. */
  lemma DeriveTagStable(cfgTag: string, srcTag: string, srcTag2: string)
    ensures DeriveTag(DeriveTag(cfgTag, srcTag), srcTag2) == DeriveTag(cfgTag, srcTag)
  {
  }

  // ---------------------------------------------------------------------
  // Steps, stages and the run of a stage sequence

  /** A call the run makes to a collaborator, or a deferred cleanup. */
  datatype Step =
    | EnsureFolder
    | RunReport(name: string)
    | NewClient
    | InitConfig(image: string)
    | PickManager(osType: string)
    | Install(manifest: UpdateManifest, ignoreErrors: bool)
    | Solve(imageName: string)
    | CloseClient
    | RemoveFolder

  /** The error a run ends with (None on success) and the calls it made,
      cleanups included, in order. */
  datatype RunResult = RunResult(err: Option<Error>, trace: seq<Step>)

  /** What the run depends on outside the patcher, as outcomes: parsing the
      image reference, whether the operating system refuses to create the
      working folder (and how far os.MkdirAll got before it did), the report, the BuildKit client, the BuildKit
      configuration, the package manager's installation, and the solve to
      Docker. A None outcome is success. */
  datatype Collaborators = Collaborators(
    parseNamed: string -> Result<Reference, Error>,
    mkdirRefusal: Option<nat>,
    runReport: string -> Result<UpdateManifest, Error>,
    newClient: Option<Error>,
    initConfig: (string, UpdateManifest) -> Option<Error>,
    installUpdates: (PkgMgr.PackageManager, UpdateManifest, bool) -> Option<Error>,
    solveToDocker: string -> Option<Error>)

  // ---------------------------------------------------------------------
  // The run as a list of steps: a reference definition

  /** The number of steps a run makes before its cleanups. */
  const StepCount: nat := 7

  /** The context message each step's error is wrapped in. */
  const Contexts: seq<string> := [
    "failed to create working folder", "failed to parse report", "failed to create new client",
    "failed to init buildkit config", "failed to get package manager", "failed to install updates",
    "failed to solve to docker"]

  /** Index of the step that creates the BuildKit client, whose success
      registers the cleanup that closes it. */
  const ClientStep: nat := 2

  /** The manifest the report produces, empty when the report fails (the
      later steps are then never reached). */
  function ReportManifest(c: Collaborators, name: string): UpdateManifest
  {
    var report := c.runReport(name);
    if report.Ok? then report.value else EmptyManifest
  }

  /** The seven calls of a run, in order. */
  function Calls(c: Collaborators, image: string, ignoreErrors: bool, name: string, imageName: string): (r: seq<Step>)
    ensures |r| == StepCount
  {
    var manifest := ReportManifest(c, name);
    [EnsureFolder, RunReport(name), NewClient, InitConfig(image),
     PickManager(manifest.metadata.os.osType), Install(manifest, ignoreErrors),
     Solve(imageName)]
  }

  function ErrorOf<T>(r: Result<T, Error>): (e: Option<Error>)
    ensures e.None? <==> r.Ok?
  {
    if r.Ok? then None else Some(r.error)
  }

  /** The outcome of installing the updates with the package manager the
      manifest's OS family selects; the call is only made when one exists. */
  function InstallOutcome(c: Collaborators, manifest: UpdateManifest, ignoreErrors: bool): Option<Error>
  {
    var pm := PkgMgr.GetPackageManager(manifest.metadata.os.osType, DefaultFolder);
    if pm.Ok? then c.installUpdates(pm.value, manifest, ignoreErrors) else None
  }

  /** The outcome each of the seven calls has, once the working-folder
      decision `ensure` is made. */
  function Outcomes(c: Collaborators, image: string, ignoreErrors: bool, name: string, imageName: string,
                    ensure: EnsureOutcome): (r: seq<Option<Error>>)
    ensures |r| == StepCount
  {
    var manifest := ReportManifest(c, name);
    [ensure.err, ErrorOf(c.runReport(name)), c.newClient, c.initConfig(image, manifest),
     ErrorOf(PkgMgr.GetPackageManager(manifest.metadata.os.osType, DefaultFolder)),
     InstallOutcome(c, manifest, ignoreErrors), c.solveToDocker(imageName)]
  }

  /** The index of the first failing outcome, |outcomes| when none fails. */
  function FirstFailure(outcomes: seq<Option<Error>>): (f: nat)
    ensures f <= |outcomes|
    ensures forall j :: 0 <= j < f ==> outcomes[j].None?
    ensures f < |outcomes| ==> outcomes[f].Some?
  {
    if outcomes == [] then 0
    else if outcomes[0].Some? then 0
    else 1 + FirstFailure(outcomes[1..])
  }

  /** The cleanups that have been registered when step `f` fails (or, with
      f == StepCount, when every step succeeded), in the order they run:
      the client is closed first, then the working folder removed. */
  function Cleanups(f: nat, created: bool): seq<Step>
  {
    (if f > ClientStep then [CloseClient] else []) + (if created then [RemoveFolder] else [])
  }

  /** What a run does by the list: the steps up to and including the first
      failing one are called, then the registered cleanups run; the error
      is the first failure wrapped in its step's context. */
  function ListedRun(c: Collaborators, image: string, ignoreErrors: bool, name: string, imageName: string,
                     ensure: EnsureOutcome): RunResult
  {
    var outcomes := Outcomes(c, image, ignoreErrors, name, imageName, ensure);
    var calls := Calls(c, image, ignoreErrors, name, imageName);
    var f := FirstFailure(outcomes);
    if f < StepCount then
      RunResult(Some(Wrapped(Contexts[f], outcomes[f].value)), calls[..f + 1] + Cleanups(f, ensure.created))
    else
      RunResult(None, calls + Cleanups(f, ensure.created))
  }

  // ---------------------------------------------------------------------
  // The patch run

  /** The same run written the way the Go function is: each step in turn,
      returning at the first error, with the registered cleanups appended
      in reverse order of registration. */
  function StepwiseRun(c: Collaborators, image: string, ignoreErrors: bool, name: string, imageName: string,
                       ensure: EnsureOutcome): RunResult
  {
    if ensure.err.Some? then
      RunResult(Some(Wrapped("failed to create working folder", ensure.err.value)), [EnsureFolder])
    else
      var folder := if ensure.created then [RemoveFolder] else [];
      match c.runReport(name)
      case Err(e) => RunResult(Some(Wrapped("failed to parse report", e)), [EnsureFolder, RunReport(name)] + folder)
      case Ok(manifest) =>
        var ran := [EnsureFolder, RunReport(name), NewClient];
        if c.newClient.Some? then
          RunResult(Some(Wrapped("failed to create new client", c.newClient.value)), ran + folder)
        else
          var cleanup := [CloseClient] + folder;
          var configErr := c.initConfig(image, manifest);
          if configErr.Some? then
            RunResult(Some(Wrapped("failed to init buildkit config", configErr.value)), ran + [InitConfig(image)] + cleanup)
          else
            var osType := manifest.metadata.os.osType;
            var ran := ran + [InitConfig(image), PickManager(osType)];
            match PkgMgr.GetPackageManager(osType, DefaultFolder)
            case Err(e) => RunResult(Some(Wrapped("failed to get package manager", e)), ran + cleanup)
            case Ok(pm) =>
              var installErr := c.installUpdates(pm, manifest, ignoreErrors);
              var ran := ran + [Install(manifest, ignoreErrors)];
              if installErr.Some? then
                RunResult(Some(Wrapped("failed to install updates", installErr.value)), ran + cleanup)
              else
                var solveErr := c.solveToDocker(imageName);
                var ran := ran + [Solve(imageName)];
                if solveErr.Some? then RunResult(Some(Wrapped("failed to solve to docker", solveErr.value)), ran + cleanup)
                else RunResult(None, ran + cleanup)
  }

  /** An index before which every outcome succeeds and at which one fails
      (or the end) is the first failure. */
  lemma {:induction false} FirstFailureIs(outcomes: seq<Option<Error>>, f: nat)
    requires f <= |outcomes|
    requires forall j :: 0 <= j < f ==> outcomes[j].None?
    requires f < |outcomes| ==> outcomes[f].Some?
    ensures FirstFailure(outcomes) == f
  {
    if f > 0 {
      FirstFailureIs(outcomes[1..], f - 1);
    }
  }

  /** The run as the Go function makes it agrees with the run by the
      list: first failure wins, and the registered cleanups run last
      registered first. */
  lemma StepwiseIsListed(c: Collaborators, image: string, ignoreErrors: bool, name: string, imageName: string,
                         ensure: EnsureOutcome)
    requires ensure.created ==> ensure.err.None?
    ensures var listed := ListedRun(c, image, ignoreErrors, name, imageName, ensure);
      StepwiseRun(c, image, ignoreErrors, name, imageName, ensure).err == listed.err
      && StepwiseRun(c, image, ignoreErrors, name, imageName, ensure).trace == listed.trace
  {
    var outcomes := Outcomes(c, image, ignoreErrors, name, imageName, ensure);
    if outcomes[0].Some? || outcomes[1].Some? || outcomes[2].Some? {
      ListedEarlyFailure(c, image, ignoreErrors, name, imageName, ensure);
    } else {
      ListedAfterClient(c, image, ignoreErrors, name, imageName, ensure);
    }
  }

  /** StepwiseIsListed when the folder, the report or the client fails. */
  lemma ListedEarlyFailure(c: Collaborators, image: string, ignoreErrors: bool, name: string, imageName: string,
                           ensure: EnsureOutcome)
    requires ensure.created ==> ensure.err.None?
    requires var outcomes := Outcomes(c, image, ignoreErrors, name, imageName, ensure);
      outcomes[0].Some? || outcomes[1].Some? || outcomes[2].Some?
    ensures var listed := ListedRun(c, image, ignoreErrors, name, imageName, ensure);
      StepwiseRun(c, image, ignoreErrors, name, imageName, ensure).err == listed.err
      && StepwiseRun(c, image, ignoreErrors, name, imageName, ensure).trace == listed.trace
  {
    var outcomes := Outcomes(c, image, ignoreErrors, name, imageName, ensure);
    var calls := Calls(c, image, ignoreErrors, name, imageName);
    if outcomes[0].Some? {
      FirstFailureIs(outcomes, 0);
    } else if outcomes[1].Some? {
      FirstFailureIs(outcomes, 1);
      assert calls[..2] == [EnsureFolder, RunReport(name)];
    } else {
      FirstFailureIs(outcomes, 2);
      assert calls[..3] == [EnsureFolder, RunReport(name), NewClient];
    }
  }

  /** StepwiseIsListed once the client exists. */
  lemma ListedAfterClient(c: Collaborators, image: string, ignoreErrors: bool, name: string, imageName: string,
                          ensure: EnsureOutcome)
    requires ensure.created ==> ensure.err.None?
    requires var outcomes := Outcomes(c, image, ignoreErrors, name, imageName, ensure);
      outcomes[0].None? && outcomes[1].None? && outcomes[2].None?
    ensures var listed := ListedRun(c, image, ignoreErrors, name, imageName, ensure);
      StepwiseRun(c, image, ignoreErrors, name, imageName, ensure).err == listed.err
      && StepwiseRun(c, image, ignoreErrors, name, imageName, ensure).trace == listed.trace
  {
    var outcomes := Outcomes(c, image, ignoreErrors, name, imageName, ensure);
    if outcomes[3].Some? || outcomes[4].Some? {
      ListedConfigOrManager(c, image, ignoreErrors, name, imageName, ensure);
    } else {
      ListedInstallOrSolve(c, image, ignoreErrors, name, imageName, ensure);
    }
  }

  /** StepwiseIsListed when the configuration or the package manager fails. */
  lemma ListedConfigOrManager(c: Collaborators, image: string, ignoreErrors: bool, name: string, imageName: string,
                              ensure: EnsureOutcome)
    requires ensure.created ==> ensure.err.None?
    requires var outcomes := Outcomes(c, image, ignoreErrors, name, imageName, ensure);
      outcomes[0].None? && outcomes[1].None? && outcomes[2].None? && (outcomes[3].Some? || outcomes[4].Some?)
    ensures var listed := ListedRun(c, image, ignoreErrors, name, imageName, ensure);
      StepwiseRun(c, image, ignoreErrors, name, imageName, ensure).err == listed.err
      && StepwiseRun(c, image, ignoreErrors, name, imageName, ensure).trace == listed.trace
  {
    var outcomes := Outcomes(c, image, ignoreErrors, name, imageName, ensure);
    var calls := Calls(c, image, ignoreErrors, name, imageName);
    assert calls[..3] == [EnsureFolder, RunReport(name), NewClient];
    if outcomes[3].Some? {
      FirstFailureIs(outcomes, 3);
      assert calls[..4] == calls[..3] + [calls[3]];
    } else {
      FirstFailureIs(outcomes, 4);
      assert calls[..5] == calls[..3] + [calls[3], calls[4]];
    }
  }

  /** StepwiseIsListed once a package manager exists. */
  lemma ListedInstallOrSolve(c: Collaborators, image: string, ignoreErrors: bool, name: string, imageName: string,
                             ensure: EnsureOutcome)
    requires ensure.created ==> ensure.err.None?
    requires var outcomes := Outcomes(c, image, ignoreErrors, name, imageName, ensure);
      outcomes[0].None? && outcomes[1].None? && outcomes[2].None? && outcomes[3].None? && outcomes[4].None?
    ensures var listed := ListedRun(c, image, ignoreErrors, name, imageName, ensure);
      StepwiseRun(c, image, ignoreErrors, name, imageName, ensure).err == listed.err
      && StepwiseRun(c, image, ignoreErrors, name, imageName, ensure).trace == listed.trace
  {
    var outcomes := Outcomes(c, image, ignoreErrors, name, imageName, ensure);
    var calls := Calls(c, image, ignoreErrors, name, imageName);
    if outcomes[5].Some? {
      FirstFailureIs(outcomes, 5);
      assert calls[..6] == [calls[0], calls[1], calls[2], calls[3], calls[4], calls[5]];
    } else {
      ListedSolve(c, image, ignoreErrors, name, imageName, ensure);
    }
  }

  /** StepwiseIsListed once the updates are installed. */
  lemma ListedSolve(c: Collaborators, image: string, ignoreErrors: bool, name: string, imageName: string,
                    ensure: EnsureOutcome)
    requires ensure.created ==> ensure.err.None?
    requires var outcomes := Outcomes(c, image, ignoreErrors, name, imageName, ensure);
      && outcomes[0].None? && outcomes[1].None? && outcomes[2].None?
      && outcomes[3].None? && outcomes[4].None? && outcomes[5].None?
    ensures var listed := ListedRun(c, image, ignoreErrors, name, imageName, ensure);
      StepwiseRun(c, image, ignoreErrors, name, imageName, ensure).err == listed.err
      && StepwiseRun(c, image, ignoreErrors, name, imageName, ensure).trace == listed.trace
  {
    var outcomes := Outcomes(c, image, ignoreErrors, name, imageName, ensure);
    var calls := Calls(c, image, ignoreErrors, name, imageName);
    var manifest := c.runReport(name).value;
    assert [EnsureFolder, RunReport(name), NewClient] + [InitConfig(image), PickManager(manifest.metadata.os.osType)]
           + [Install(manifest, ignoreErrors)] + [Solve(imageName)] == calls;
    if outcomes[6].Some? {
      FirstFailureIs(outcomes, 6);
      assert calls[..7] == calls;
    } else {
      FirstFailureIs(outcomes, 7);
    }
  }

  /** The configured tag afterwards, the error, the calls made in order and
      the filesystem afterwards. */
  datatype PatchOutcome = PatchOutcome(tag: string, err: Option<Error>, trace: seq<Step>, entries: map<Path, Node>)

  /** What one patch run does, given the configured tag, the image, the
      ignore-errors flag, the report name, the collaborators and the
      filesystem. */
  function PatchSpec(cfgTag: string, image: string, ignoreErrors: bool, name: string, c: Collaborators,
                     entries: map<Path, Node>): PatchOutcome
  {
    match c.parseNamed(image)
    case Err(e) => PatchOutcome(cfgTag, Some(Wrapped("failed to parse named", e)), [], entries)
    case Ok(ref) =>
      var src := SourceTag(ref);
      if src.None? then PatchOutcome(cfgTag, Some(InvalidTaggedName), [], entries)
      else
        var tag := DeriveTag(cfgTag, src.value);
        var ensure := EnsurePathSpec(entries, DefaultFolder, DefaultPerm, c.mkdirRefusal);
        var run := StepwiseRun(c, image, ignoreErrors, name, PatchedImageName(ref.name, tag), ensure);
        PatchOutcome(tag, run.err, run.trace,
                     if ensure.created then AfterRemoveAll(ensure.entries, DefaultFolder) else ensure.entries)
  }

  // ---------------------------------------------------------------------
  // Properties of a patch run

  /** A reference that does not parse, or that still has no tag once a bare
      name is defaulted to "latest", ends the run before any step: nothing
      is called, the filesystem and the configured tag are untouched. */
  lemma EarlyExitsChangeNothing(cfgTag: string, image: string, ignoreErrors: bool, name: string, c: Collaborators,
                                entries: map<Path, Node>)
    requires c.parseNamed(image).Err? || SourceTag(c.parseNamed(image).value).None?
    ensures var o := PatchSpec(cfgTag, image, ignoreErrors, name, c, entries);
      && o.trace == [] && o.entries == entries && o.tag == cfgTag
      && (c.parseNamed(image).Err? ==> o.err == Some(Wrapped("failed to parse named", c.parseNamed(image).error)))
      && (c.parseNamed(image).Ok? ==> o.err == Some(InvalidTaggedName))
  {
  }

  /** Once a run has derived a tag, the tag is non-empty and a later run
      keeps it, whatever that run's image, collaborators or filesystem. */
  lemma TagStable(cfgTag: string, image: string, ignoreErrors: bool, name: string, c: Collaborators,
                  entries: map<Path, Node>, image2: string, name2: string, c2: Collaborators,
                  entries2: map<Path, Node>)
    requires c.parseNamed(image).Ok? && SourceTag(c.parseNamed(image).value).Some?
    ensures var o := PatchSpec(cfgTag, image, ignoreErrors, name, c, entries);
      && o.tag != ""
      && PatchSpec(o.tag, image2, ignoreErrors, name2, c2, entries2).tag == o.tag
  {
  }

  /** The position of a step in a run: the seven calls in order, then the
      two cleanups. */
  function Ordinal(s: Step): nat
  {
    match s
    case EnsureFolder => 0
    case RunReport(_) => 1
    case NewClient => 2
    case InitConfig(_) => 3
    case PickManager(_) => 4
    case Install(_, _) => 5
    case Solve(_) => 6
    case CloseClient => 7
    case RemoveFolder => 8
  }

  /** The calls of a run are distinct, in order, and none is a cleanup. */
  lemma CallOrdinals(c: Collaborators, image: string, ignoreErrors: bool, name: string, imageName: string)
    ensures var calls := Calls(c, image, ignoreErrors, name, imageName);
      forall j :: 0 <= j < StepCount ==> Ordinal(calls[j]) == j
  {
  }

  /** The trace of the run by the list, cut at the first failure. */
  lemma ListedTrace(c: Collaborators, image: string, ignoreErrors: bool, name: string, imageName: string,
                    ensure: EnsureOutcome)
    ensures var f := FirstFailure(Outcomes(c, image, ignoreErrors, name, imageName, ensure));
      var k := if f < StepCount then f + 1 else StepCount;
      var calls := Calls(c, image, ignoreErrors, name, imageName);
      ListedRun(c, image, ignoreErrors, name, imageName, ensure).trace == calls[..k] + Cleanups(f, ensure.created)
  {
    var calls := Calls(c, image, ignoreErrors, name, imageName);
    assert calls[..StepCount] == calls;
  }

  /** The facts about a trace of calls cut after the first failure `f`,
      followed by the registered cleanups, that hold for any seven distinct
      calls. */
  lemma CutTrace(calls: seq<Step>, f: nat, created: bool)
    requires |calls| == StepCount && forall j :: 0 <= j < StepCount ==> Ordinal(calls[j]) == j
    requires f <= StepCount
    ensures var k := if f < StepCount then f + 1 else StepCount;
      var trace := calls[..k] + Cleanups(f, created);
      var folder := if created then 1 else 0;
      && (forall j :: 0 <= j < StepCount ==> (calls[j] in trace <==> j <= f))
      && (RemoveFolder in trace <==> created)
      && (created ==> trace[|trace| - 1] == RemoveFolder)
      && (CloseClient in trace <==> f > ClientStep)
      && (f > ClientStep ==> |trace| > folder && trace[|trace| - 1 - folder] == CloseClient)
  {
    var k := if f < StepCount then f + 1 else StepCount;
    var cleanups := Cleanups(f, created);
    var trace := calls[..k] + cleanups;
    assert forall i :: 0 <= i < k ==> trace[i] == calls[i];
    assert forall i :: k <= i < |trace| ==> trace[i] == cleanups[i - k];
    forall j | 0 <= j < StepCount
      ensures calls[j] in trace <==> j <= f
    {
      if j <= f {
        assert trace[j] == calls[j];
      } else {
        forall i | 0 <= i < |trace|
          ensures Ordinal(trace[i]) != j
        {
          if i < k {
            assert trace[i] == calls[i];
          }
        }
      }
    }
  }

  /** The cleanups of a step-by-step run: the working folder is removed
      exactly when this run created it, and then last; the client is closed
      exactly when it was created, after every step and before the folder
      goes. */
  lemma CleanupsOfRun(c: Collaborators, image: string, ignoreErrors: bool, name: string, imageName: string,
                      ensure: EnsureOutcome)
    requires ensure.created ==> ensure.err.None?
    ensures var r := StepwiseRun(c, image, ignoreErrors, name, imageName, ensure);
      var folder := if ensure.created then 1 else 0;
      var clientMade := ensure.err.None? && c.runReport(name).Ok? && c.newClient.None?;
      && (RemoveFolder in r.trace <==> ensure.created)
      && (ensure.created ==> r.trace[|r.trace| - 1] == RemoveFolder)
      && (CloseClient in r.trace <==> clientMade)
      && (clientMade ==> |r.trace| > folder && r.trace[|r.trace| - 1 - folder] == CloseClient)
  {
    StepwiseIsListed(c, image, ignoreErrors, name, imageName, ensure);
    ListedTrace(c, image, ignoreErrors, name, imageName, ensure);
    CallOrdinals(c, image, ignoreErrors, name, imageName);
    var outcomes := Outcomes(c, image, ignoreErrors, name, imageName, ensure);
    var f := FirstFailure(outcomes);
    CutTrace(Calls(c, image, ignoreErrors, name, imageName), f, ensure.created);
    assert f > ClientStep <==> outcomes[0].None? && outcomes[1].None? && outcomes[2].None?;
  }

  /** First failure wins: the steps after the failing one are never called. */
  lemma NoStepAfterFailure(c: Collaborators, image: string, ignoreErrors: bool, name: string, imageName: string,
                           ensure: EnsureOutcome)
    ensures var calls := Calls(c, image, ignoreErrors, name, imageName);
      var f := FirstFailure(Outcomes(c, image, ignoreErrors, name, imageName, ensure));
      var r := ListedRun(c, image, ignoreErrors, name, imageName, ensure);
      forall j :: 0 <= j < StepCount ==> (calls[j] in r.trace <==> j <= f)
  {
    ListedTrace(c, image, ignoreErrors, name, imageName, ensure);
    CallOrdinals(c, image, ignoreErrors, name, imageName);
    var f := FirstFailure(Outcomes(c, image, ignoreErrors, name, imageName, ensure));
    CutTrace(Calls(c, image, ignoreErrors, name, imageName), f, ensure.created);
  }

  /** The working-folder lifecycle over a whole run: a folder the run
      created is removed again, leaving behind only ancestors that MkdirAll
      had to create; a folder that already existed is left as it was, and
      so is every other entry. */
  lemma WorkingFolderLifecycle(cfgTag: string, image: string, ignoreErrors: bool, name: string, c: Collaborators,
                               entries: map<Path, Node>)
    requires WellFormed(entries) && NoFileAbove(entries, DefaultFolder)
    requires c.parseNamed(image).Ok? && SourceTag(c.parseNamed(image).value).Some?
    ensures var o := PatchSpec(cfgTag, image, ignoreErrors, name, c, entries);
      && (RemoveFolder in o.trace <==> DefaultFolder !in entries && c.mkdirRefusal.None?)
      && (DefaultFolder in o.entries <==> DefaultFolder in entries)
      && (DefaultFolder in entries ==> o.entries == entries)
      && (forall p :: p in entries ==> p in o.entries && o.entries[p] == entries[p])
      && (forall p :: p in o.entries && p !in entries ==> p < DefaultFolder)
  {
    var ref := c.parseNamed(image).value;
    var tag := DeriveTag(cfgTag, SourceTag(ref).value);
    var ensure := EnsurePathSpec(entries, DefaultFolder, DefaultPerm, c.mkdirRefusal);
    CleanupsOfRun(c, image, ignoreErrors, name, PatchedImageName(ref.name, tag), ensure);
    if DefaultFolder in entries {
      EnsureExistingPath(entries, DefaultFolder, DefaultPerm, c.mkdirRefusal);
    } else {
      EnsureMissingPath(entries, DefaultFolder, DefaultPerm, c.mkdirRefusal);
      if ensure.created {
        MkdirAllThenRemoveAll(entries, DefaultFolder, DefaultPerm);
      }
    }
  }

  /** The patcher with its configuration: the image to patch, whether
      package installation errors are ignored, and the output tag, which a
      run fills in when it is empty. */
  class Patcher {
    const image: string
    const ignoreErrors: bool
    var tag: string

    constructor (image: string, tag: string, ignoreErrors: bool)
      ensures this.image == image && this.tag == tag && this.ignoreErrors == ignoreErrors
    {
      this.image := image;
      this.tag := tag;
      this.ignoreErrors := ignoreErrors;
    }

    /** One patch run against the filesystem `fs`. `trace` lists the calls
        made and the cleanups run, in order. */
    method Patch(name: string, c: Collaborators, fs: FileSystem) returns (err: Option<Error>, trace: seq<Step>)
      requires fs.Valid() && NoFileAbove(fs.entries, DefaultFolder)
      modifies this, fs
      ensures fs.Valid()
      ensures var o := PatchSpec(old(tag), image, ignoreErrors, name, c, old(fs.entries));
        tag == o.tag && err == o.err && trace == o.trace && fs.entries == o.entries
    {
      var parsed := c.parseNamed(image);
      if parsed.Err? {
        return Some(Wrapped("failed to parse named", parsed.error)), [];
      }
      var imageName := parsed.value;
      if IsNameOnly(imageName) {
        imageName := TagNameOnly(imageName);
      }
      if imageName.tag.None? {
        return Some(InvalidTaggedName), [];
      }
      var srcTag := imageName.tag.value;
      if tag == "" {
        if srcTag == "" {
          tag := DefaultTag;
        } else {
          tag := srcTag + "-" + DefaultTag;
        }
      }
      var patchedImageName := imageName.name + ":" + tag;
      assert patchedImageName == PatchedImageName(imageName.name, tag);
      err, trace := RunSteps(name, c, fs, patchedImageName);
    }

    /** The part of a patch run after the output image name is known: the
        working folder, the build steps and the deferred cleanups. */
    method RunSteps(name: string, c: Collaborators, fs: FileSystem, patchedImageName: string)
      returns (err: Option<Error>, trace: seq<Step>)
      requires fs.Valid() && NoFileAbove(fs.entries, DefaultFolder)
      modifies fs
      ensures fs.Valid()
      ensures var ensure := EnsurePathSpec(old(fs.entries), DefaultFolder, DefaultPerm, c.mkdirRefusal);
        var run := StepwiseRun(c, image, ignoreErrors, name, patchedImageName, ensure);
        && err == run.err && trace == run.trace
        && fs.entries == if ensure.created then AfterRemoveAll(ensure.entries, DefaultFolder) else ensure.entries
    {
      ghost var ensure := EnsurePathSpec(fs.entries, DefaultFolder, DefaultPerm, c.mkdirRefusal);
      ghost var run := StepwiseRun(c, image, ignoreErrors, name, patchedImageName, ensure);
      var defers: seq<Step> := [];

      trace := [EnsureFolder];
      var isNew, e := EnsurePath(fs, DefaultFolder, DefaultPerm, c.mkdirRefusal);
      if e.Some? {
        err := Some(Wrapped("failed to create working folder", e.value));
        trace := Unwind(fs, trace, defers);
        return;
      }
      if isNew {
        defers := [RemoveFolder] + defers;
      }
      ghost var folder: seq<Step> := if ensure.created then [RemoveFolder] else [];
      assert defers == folder;

      trace := trace + [RunReport(name)];
      assert trace == [EnsureFolder, RunReport(name)];
      var manifest := c.runReport(name);
      if manifest.Err? {
        assert run.trace == trace + defers;
        err := Some(Wrapped("failed to parse report", manifest.error));
        trace := Unwind(fs, trace, defers);
        return;
      }

      trace := trace + [NewClient];
      ghost var ran := [EnsureFolder, RunReport(name), NewClient];
      assert trace == ran;
      var clientErr := c.newClient;
      if clientErr.Some? {
        assert run.trace == trace + defers;
        err := Some(Wrapped("failed to create new client", clientErr.value));
        trace := Unwind(fs, trace, defers);
        return;
      }
      defers := [CloseClient] + defers;
      assert (RemoveFolder in defers) == ensure.created;

      trace := trace + [InitConfig(image)];
      var configErr := c.initConfig(image, manifest.value);
      if configErr.Some? {
        assert run.trace == trace + defers;
        err := Some(Wrapped("failed to init buildkit config", configErr.value));
        trace := Unwind(fs, trace, defers);
        return;
      }

      var osType := manifest.value.metadata.os.osType;
      trace := trace + [PickManager(osType)];
      ran := ran + [InitConfig(image), PickManager(osType)];
      assert trace == ran;
      var pm := PkgMgr.GetPackageManager(osType, DefaultFolder);
      if pm.Err? {
        assert run.trace == trace + defers;
        err := Some(Wrapped("failed to get package manager", pm.error));
        trace := Unwind(fs, trace, defers);
        return;
      }

      trace := trace + [Install(manifest.value, ignoreErrors)];
      ran := ran + [Install(manifest.value, ignoreErrors)];
      var installErr := c.installUpdates(pm.value, manifest.value, ignoreErrors);
      if installErr.Some? {
        assert run.trace == trace + defers;
        err := Some(Wrapped("failed to install updates", installErr.value));
        trace := Unwind(fs, trace, defers);
        return;
      }

      trace := trace + [Solve(patchedImageName)];
      ran := ran + [Solve(patchedImageName)];
      var solveErr := c.solveToDocker(patchedImageName);
      if solveErr.Some? {
        assert run.trace == trace + defers;
        err := Some(Wrapped("failed to solve to docker", solveErr.value));
        trace := Unwind(fs, trace, defers);
        return;
      }

      assert run.trace == trace + defers;
      err := None;
      trace := Unwind(fs, trace, defers);
    }
  }

  /** Runs the deferred cleanups in stack order, appending each to `trace`.
      Removing the working folder is the only cleanup that touches the
      filesystem; closing the client leaves it alone. */
  method Unwind(fs: FileSystem, trace: seq<Step>, defers: seq<Step>) returns (t: seq<Step>)
    requires fs.Valid()
    modifies fs
    ensures fs.Valid()
    ensures t == trace + defers
    ensures fs.entries == if RemoveFolder in defers then AfterRemoveAll(old(fs.entries), DefaultFolder)
                          else old(fs.entries)
  {
    t := trace;
    for i := 0 to |defers|
      invariant fs.Valid()
      invariant t == trace + defers[..i]
      invariant fs.entries == if RemoveFolder in defers[..i] then AfterRemoveAll(old(fs.entries), DefaultFolder)
                              else old(fs.entries)
    {
      assert defers[..i + 1] == defers[..i] + [defers[i]];
      if defers[i] == RemoveFolder {
        fs.RemoveAll(DefaultFolder);
      }
      t := t + [defers[i]];
    }
    assert defers[..|defers|] == defers;
  }
}
