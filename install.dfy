/**
 * The install command (`InstallCommand::handle`) and its steps. Each step is
 * a method on the file system, proved against a function on a snapshot of
 * it; `Run` strings the step functions together the way `handle` does, and
 * the lemmas below state what a run promises.
 *
 * Oracles the model takes as given: `realpath`, `getcwd` and
 * `DIRECTORY_SEPARATOR` (through `Path`), `stream_get_wrappers()`,
 * `Yaml::parse` (`None` is a parse error) and `Yaml::dump($data, 4)`.
 */
module Install {
  import opened Wrappers
  import opened PhpArray
  import opened Disk
  import Path
  import Caddyfile
  import TrustProxies
  import ComposeMerge

  /** `Command::SUCCESS` and `Command::FAILURE`. */
  const SUCCESS: int := 0
  const FAILURE: int := 1

  /** What the two `.gitignore` markers hold. */
  const GitIgnoreContents: string := "*\n!.gitignore\n"

  /** The command's options `--service`, `--directory` and `--middleware`. */
  datatype Options = Options(service: string, directory: string, middleware: bool)

  datatype Environment = Environment(
    basePath: string,
    separator: char,
    realpath: string -> Option<string>,
    cwd: Option<string>,
    wrappers: seq<string>,
    caddyTemplate: string,
    trustProxiesStub: string,
    parse: string -> Option<Value>,
    dump: seq<Entry> -> string)

  /** `$application->basePath($rel)`. */
  function AppPath(env: Environment, rel: string): string
  {
    env.basePath + [env.separator] + rel
  }

  function ComposeFile(env: Environment): string { AppPath(env, "docker-compose.yml") }
  function TrustProxiesFile(env: Environment): string { AppPath(env, "app/Http/Middleware/TrustProxies.php") }
  function CaddyfilePath(directory: string): string { directory + "/Caddyfile" }
  function CertificatesDir(directory: string): string { directory + "/certificates" }
  function AuthoritiesDir(directory: string): string { directory + "/authorities" }
  function CertificatesMarker(directory: string): string { CertificatesDir(directory) + "/.gitignore" }
  function AuthoritiesMarker(directory: string): string { AuthoritiesDir(directory) + "/.gitignore" }

  /** `Yaml::parse` yields PHP values, whose arrays never repeat a key. */
  ghost predicate ParsesToArrays(env: Environment)
  {
    forall t :: env.parse(t).Some? ==> WellFormed(env.parse(t).value)
  }

  /** The paths for which `is_dir($p) || is_file($p)` holds. */
  function Existing(d: Disk): set<string>
  {
    d.dirs + d.files.Keys
  }

  // ---- ensureSslProxyVolumeDirectories ----

  /**
   * The two marker writes inside one `try`: a failed first write throws
   * before the second, and the failure is swallowed.
   */
  function WriteMarkers(d: Disk, directory: string): Disk
  {
    var (ok, d1) := WriteFile(d, CertificatesMarker(directory), GitIgnoreContents);
    if ok then WriteFile(d1, AuthoritiesMarker(directory), GitIgnoreContents).1 else d1
  }

  datatype Provisioned = Provisioned(directory: Option<string>, disk: Disk)

  /** The directory the step returns (`None`: it throws) and the disk it leaves. */
  function Provision(opts: Options, env: Environment, d: Disk): Provisioned
  {
    match Path.Absolute(opts.directory, env.separator, env.realpath, env.cwd)
    case None => Provisioned(None, d)
    case Some(directory) =>
      if !Path.IsAbsolute(directory, env.realpath, env.wrappers, Existing(d)) then Provisioned(None, d)
      else
        match EnsureDirectory(d, directory)
        case None => Provisioned(None, d)
        case Some(d1) =>
          match EnsureDirectory(d1, CertificatesDir(directory))
          case None => Provisioned(None, d1)
          case Some(d2) =>
            match EnsureDirectory(d2, AuthoritiesDir(directory))
            case None => Provisioned(None, d2)
            case Some(d3) => Provisioned(Some(directory), WriteMarkers(d3, directory))
  }

  /** `InstallCommand::ensureSslProxyVolumeDirectories`. */
  method EnsureVolumeDirectories(opts: Options, env: Environment, fs: FileSystem) returns (directory: Option<string>)
    modifies fs
    ensures Provisioned(directory, fs.State()) == Provision(opts, env, old(fs.State()))
  {
    directory := Path.ToAbsolute(opts.directory, env.separator, env.realpath, env.cwd);
    if directory.None? {
      return;
    }
    var dir := directory.value;
    var existing := fs.dirs + fs.files.Keys;
    if !Path.IsAbsolute(dir, env.realpath, env.wrappers, existing) {
      return None;
    }
    var ok := fs.IsDir(dir);
    if !ok {
      ok := fs.MakeDirectory(dir);
    }
    if !ok {
      return None;
    }
    ok := fs.IsDir(CertificatesDir(dir));
    if !ok {
      ok := fs.MakeDirectory(CertificatesDir(dir));
    }
    if !ok {
      return None;
    }
    ok := fs.IsDir(AuthoritiesDir(dir));
    if !ok {
      ok := fs.MakeDirectory(AuthoritiesDir(dir));
    }
    if !ok {
      return None;
    }
    ok := fs.PutContents(CertificatesMarker(dir), GitIgnoreContents);
    if ok {
      ok := fs.PutContents(AuthoritiesMarker(dir), GitIgnoreContents);
    }
  }

  // ---- writeCaddyFile ----

  /** Whether the step writes the Caddyfile, and the disk it leaves. */
  function CaddyfileWritten(opts: Options, env: Environment, directory: string, d: Disk): (bool, Disk)
  {
    if env.caddyTemplate !in d.files then (false, d)
    else WriteFile(d, CaddyfilePath(directory), Caddyfile.Render(d.files[env.caddyTemplate], opts.service))
  }

  /** `InstallCommand::writeCaddyFile`. */
  method WriteCaddyFile(opts: Options, env: Environment, directory: string, fs: FileSystem) returns (ok: bool)
    modifies fs
    ensures (ok, fs.State()) == CaddyfileWritten(opts, env, directory, old(fs.State()))
  {
    var template := fs.GetContents(env.caddyTemplate);
    if template.None? {
      return false;
    }
    var rendered := Caddyfile.Render(template.value, opts.service);
    ok := fs.PutContents(CaddyfilePath(directory), rendered);
  }

  // ---- retrieveDockerComposeData / rewriteDockerComposeYml ----

  /** The document read from docker-compose.yml, cast to an array; `None` when the step throws. */
  function ComposeLoaded(env: Environment, d: Disk): Option<seq<Entry>>
  {
    if ComposeFile(env) !in d.files then None
    else
      match env.parse(d.files[ComposeFile(env)])
      case None => None
      case Some(v) => Some(ToArray(v))
  }

  /** `InstallCommand::retrieveDockerComposeData`. */
  method RetrieveDockerComposeData(env: Environment, fs: FileSystem) returns (r: Option<seq<Entry>>)
    ensures r == ComposeLoaded(env, fs.State())
  {
    if !fs.IsFile(ComposeFile(env)) {
      return None;
    }
    var contents := fs.GetContents(ComposeFile(env));
    var parsed := env.parse(contents.value);
    if parsed.None? {
      return None;
    }
    return Some(ToArray(parsed.value));
  }

  /** `InstallCommand::rewriteDockerComposeYml`. */
  method RewriteDockerComposeYml(env: Environment, data: seq<Entry>, fs: FileSystem) returns (ok: bool)
    modifies fs
    ensures (ok, fs.State()) == WriteFile(old(fs.State()), ComposeFile(env), env.dump(data))
  {
    ok := fs.PutContents(ComposeFile(env), env.dump(data));
  }

  // ---- rewriteTrustProxiesMiddleware ----

  /** Whether the step patches TrustProxies.php, and the disk it leaves. */
  function MiddlewarePatched(env: Environment, d: Disk): (bool, Disk)
  {
    if TrustProxiesFile(env) !in d.files || env.trustProxiesStub !in d.files then (false, d)
    else WriteFile(d, TrustProxiesFile(env), TrustProxies.Patch(d.files[TrustProxiesFile(env)], d.files[env.trustProxiesStub]))
  }

  /** `InstallCommand::rewriteTrustProxiesMiddleware`. */
  method RewriteTrustProxiesMiddleware(env: Environment, fs: FileSystem) returns (ok: bool)
    modifies fs
    ensures (ok, fs.State()) == MiddlewarePatched(env, old(fs.State()))
  {
    if !fs.IsFile(TrustProxiesFile(env)) {
      return false;
    }
    var contents := fs.GetContents(TrustProxiesFile(env));
    var stub := fs.GetContents(env.trustProxiesStub);
    if stub.None? {
      return false;
    }
    var updated := TrustProxies.Patch(contents.value, stub.value);
    ok := fs.PutContents(TrustProxiesFile(env), updated);
  }

  // ---- handle ----

  datatype Step = ProvisionDirectories | WriteCaddyfile | LoadCompose | MergeCompose | SaveCompose | PatchMiddleware

  /** The steps of `handle` in order; the middleware patch only with `--middleware`. */
  function Plan(middleware: bool): seq<Step>
  {
    [ProvisionDirectories, WriteCaddyfile, LoadCompose, MergeCompose, SaveCompose]
    + (if middleware then [PatchMiddleware] else [])
  }

  /** What one step hands to the next. */
  datatype Context = Context(disk: Disk, directory: string, data: seq<Entry>, merged: seq<Entry>)

  datatype StepOutcome = StepOutcome(ok: bool, next: Context)

  /** The merge step, given what the merge returns. */
  function Merging(c: Context, merged: ComposeMerge.Result<seq<Entry>>): StepOutcome
  {
    StepOutcome(merged.Success?, c.(merged := if merged.Success? then merged.value else []))
  }

  /** One step: whether it completes (`false`: it throws) and the context after it. */
  function RunStep(step: Step, opts: Options, env: Environment, c: Context): StepOutcome
  {
    match step
    case ProvisionDirectories =>
      var p := Provision(opts, env, c.disk);
      StepOutcome(p.directory.Some?, c.(disk := p.disk, directory := if p.directory.Some? then p.directory.value else ""))
    case WriteCaddyfile =>
      var (ok, d) := CaddyfileWritten(opts, env, c.directory, c.disk);
      StepOutcome(ok, c.(disk := d))
    case LoadCompose =>
      var data := ComposeLoaded(env, c.disk);
      StepOutcome(data.Some?, c.(data := if data.Some? then data.value else []))
    case MergeCompose => Merging(c, ComposeMerge.Merged(c.data, opts.service, opts.directory))
    case SaveCompose =>
      var (ok, d) := WriteFile(c.disk, ComposeFile(env), env.dump(c.merged));
      StepOutcome(ok, c.(disk := d))
    case PatchMiddleware =>
      var (ok, d) := MiddlewarePatched(env, c.disk);
      StepOutcome(ok, c.(disk := d))
  }

  /** The exit code, the steps started, and the disk at the end. */
  datatype Outcome = Outcome(code: int, trace: seq<Step>, disk: Disk)

  /** What each step does: whether it completes and the context it passes on. */
  type Semantics = (Step, Context) -> StepOutcome

  /** The steps of the install command, for these options and this environment. */
  function Steps(opts: Options, env: Environment): Semantics
  {
    (step, c) => RunStep(step, opts, env, c)
  }

  /** Runs `steps` in order and stops with FAILURE at the first that throws. */
  function RunSteps(steps: seq<Step>, sem: Semantics, c: Context): Outcome
    decreases |steps|
  {
    if |steps| == 0 then Outcome(SUCCESS, [], c.disk)
    else
      var o := sem(steps[0], c);
      if !o.ok then Outcome(FAILURE, [steps[0]], o.next.disk)
      else
        var rest := RunSteps(steps[1..], sem, o.next);
        Outcome(rest.code, [steps[0]] + rest.trace, rest.disk)
  }

  function Run(opts: Options, env: Environment, d: Disk): Outcome
  {
    RunSteps(Plan(opts.middleware), Steps(opts, env), Context(d, "", [], []))
  }

  /** `o` with the steps `pre` put in front of its trace. */
  function After(pre: seq<Step>, o: Outcome): Outcome
  {
    Outcome(o.code, pre + o.trace, o.disk)
  }

  /** A step that completes hands its context on to the rest of the run. */
  lemma Advance(pre: seq<Step>, steps: seq<Step>, sem: Semantics, c: Context)
    requires |steps| > 0 && sem(steps[0], c).ok
    ensures After(pre, RunSteps(steps, sem, c))
         == After(pre + [steps[0]], RunSteps(steps[1..], sem, sem(steps[0], c).next))
  {
  }

  /** A step that throws ends the run with FAILURE. */
  lemma Stop(pre: seq<Step>, steps: seq<Step>, sem: Semantics, c: Context)
    requires |steps| > 0 && !sem(steps[0], c).ok
    ensures After(pre, RunSteps(steps, sem, c))
         == Outcome(FAILURE, pre + [steps[0]], sem(steps[0], c).next.disk)
  {
  }

  /** The steps of the plan from the `k`-th on. */
  lemma PlanFrom(middleware: bool, k: nat, step: Step)
    requires k < 5 || (k == 5 && middleware)
    requires step == [ProvisionDirectories, WriteCaddyfile, LoadCompose, MergeCompose, SaveCompose, PatchMiddleware][k]
    ensures |Plan(middleware)[k..]| > 0 && Plan(middleware)[k..][0] == step
    ensures Plan(middleware)[k..][1..] == Plan(middleware)[k + 1..]
  {
  }

  /** The merge step is `Merging` applied to the merge of the loaded document. */
  lemma MergeStepIs(opts: Options, env: Environment, c: Context)
    ensures RunStep(MergeCompose, opts, env, c) == Merging(c, ComposeMerge.Merged(c.data, opts.service, opts.directory))
  {
  }

  /**
   * `InstallCommand::handle`; `trace` is the steps it started. Each of its
   * `try` blocks is one method below, which goes on to the next block.
   */
  method Handle(opts: Options, env: Environment, fs: FileSystem) returns (code: int, ghost trace: seq<Step>)
    requires ParsesToArrays(env)
    modifies fs
    ensures Outcome(code, trace, fs.State()) == Run(opts, env, old(fs.State()))
  {
    ghost var c := Context(fs.State(), "", [], []);
    PlanFrom(opts.middleware, 0, ProvisionDirectories);
    var directory := EnsureVolumeDirectories(opts, env, fs);
    if directory.None? {
      Stop([], Plan(opts.middleware), Steps(opts, env), c);
      return FAILURE, [ProvisionDirectories];
    }
    Advance([], Plan(opts.middleware), Steps(opts, env), c);
    code, trace := WriteCaddyfileBlock(opts, env, fs, directory.value, [ProvisionDirectories], RunStep(ProvisionDirectories, opts, env, c).next);
  }

  /** The second block of `handle`, and the rest of the run. */
  method WriteCaddyfileBlock(opts: Options, env: Environment, fs: FileSystem, directory: string,
                             ghost done: seq<Step>, ghost c: Context)
    returns (code: int, ghost trace: seq<Step>)
    requires ParsesToArrays(env)
    requires c.disk == fs.State() && c.directory == directory
    modifies fs
    ensures Outcome(code, trace, fs.State()) == After(done, RunSteps(Plan(opts.middleware)[1..], Steps(opts, env), c))
  {
    PlanFrom(opts.middleware, 1, WriteCaddyfile);
    var written := WriteCaddyFile(opts, env, directory, fs);
    if !written {
      Stop(done, Plan(opts.middleware)[1..], Steps(opts, env), c);
      return FAILURE, done + [WriteCaddyfile];
    }
    Advance(done, Plan(opts.middleware)[1..], Steps(opts, env), c);
    code, trace := LoadComposeBlock(opts, env, fs, done + [WriteCaddyfile], RunStep(WriteCaddyfile, opts, env, c).next);
  }

  /** The third block of `handle`, and the rest of the run. */
  method LoadComposeBlock(opts: Options, env: Environment, fs: FileSystem,
                          ghost done: seq<Step>, ghost c: Context)
    returns (code: int, ghost trace: seq<Step>)
    requires ParsesToArrays(env)
    requires c.disk == fs.State()
    modifies fs
    ensures Outcome(code, trace, fs.State()) == After(done, RunSteps(Plan(opts.middleware)[2..], Steps(opts, env), c))
  {
    PlanFrom(opts.middleware, 2, LoadCompose);
    var data := RetrieveDockerComposeData(env, fs);
    if data.None? {
      Stop(done, Plan(opts.middleware)[2..], Steps(opts, env), c);
      return FAILURE, done + [LoadCompose];
    }
    Advance(done, Plan(opts.middleware)[2..], Steps(opts, env), c);
    assert WellFormed(Arr(data.value));
    code, trace := MergeComposeBlock(opts, env, fs, data.value, done + [LoadCompose], RunStep(LoadCompose, opts, env, c).next);
  }

  /** How the fourth block ends the run, or hands it on, given the merge's result. */
  lemma MergeBlockOutcome(opts: Options, env: Environment, done: seq<Step>, c: Context,
                          merged: ComposeMerge.Result<seq<Entry>>)
    requires merged == ComposeMerge.Merged(c.data, opts.service, opts.directory)
    ensures merged.Failure? ==>
      After(done, RunSteps(Plan(opts.middleware)[3..], Steps(opts, env), c)) == Outcome(FAILURE, done + [MergeCompose], c.disk)
    ensures merged.Success? ==>
      After(done, RunSteps(Plan(opts.middleware)[3..], Steps(opts, env), c))
      == After(done + [MergeCompose], RunSteps(Plan(opts.middleware)[4..], Steps(opts, env), c.(merged := merged.value)))
  {
    PlanFrom(opts.middleware, 3, MergeCompose);
    MergeStepIs(opts, env, c);
    if merged.Failure? {
      Stop(done, Plan(opts.middleware)[3..], Steps(opts, env), c);
    } else {
      Advance(done, Plan(opts.middleware)[3..], Steps(opts, env), c);
    }
  }

  /** The fourth block of `handle`, and the rest of the run. */
  method MergeComposeBlock(opts: Options, env: Environment, fs: FileSystem, data: seq<Entry>,
                           ghost done: seq<Step>, ghost c: Context)
    returns (code: int, ghost trace: seq<Step>)
    requires WellFormed(Arr(data))
    requires c.disk == fs.State() && c.data == data
    modifies fs
    ensures Outcome(code, trace, fs.State()) == After(done, RunSteps(Plan(opts.middleware)[3..], Steps(opts, env), c))
  {
    var merged := ComposeMerge.IncludeSslProxySettings(data, opts.service, opts.directory);
    MergeBlockOutcome(opts, env, done, c, merged);
    if merged.Failure? {
      return FAILURE, done + [MergeCompose];
    }
    code, trace := SaveComposeBlock(opts, env, fs, merged.value, done + [MergeCompose], c.(merged := merged.value));
  }

  /** The fifth block of `handle`, and the rest of the run. */
  method SaveComposeBlock(opts: Options, env: Environment, fs: FileSystem, merged: seq<Entry>,
                          ghost done: seq<Step>, ghost c: Context)
    returns (code: int, ghost trace: seq<Step>)
    requires c.disk == fs.State() && c.merged == merged
    modifies fs
    ensures Outcome(code, trace, fs.State()) == After(done, RunSteps(Plan(opts.middleware)[4..], Steps(opts, env), c))
  {
    PlanFrom(opts.middleware, 4, SaveCompose);
    var saved := RewriteDockerComposeYml(env, merged, fs);
    if !saved {
      Stop(done, Plan(opts.middleware)[4..], Steps(opts, env), c);
      return FAILURE, done + [SaveCompose];
    }
    Advance(done, Plan(opts.middleware)[4..], Steps(opts, env), c);
    if opts.middleware {
      code, trace := PatchMiddlewareBlock(opts, env, fs, done + [SaveCompose], RunStep(SaveCompose, opts, env, c).next);
    } else {
      assert Plan(opts.middleware)[5..] == [];
      return SUCCESS, done + [SaveCompose];
    }
  }

  /** The last block of `handle`, entered with `--middleware`. */
  method PatchMiddlewareBlock(opts: Options, env: Environment, fs: FileSystem,
                              ghost done: seq<Step>, ghost c: Context)
    returns (code: int, ghost trace: seq<Step>)
    requires opts.middleware && c.disk == fs.State()
    modifies fs
    ensures Outcome(code, trace, fs.State()) == After(done, RunSteps(Plan(opts.middleware)[5..], Steps(opts, env), c))
  {
    PlanFrom(opts.middleware, 5, PatchMiddleware);
    var patched := RewriteTrustProxiesMiddleware(env, fs);
    if !patched {
      Stop(done, Plan(opts.middleware)[5..], Steps(opts, env), c);
      return FAILURE, done + [PatchMiddleware];
    }
    Advance(done, Plan(opts.middleware)[5..], Steps(opts, env), c);
    assert Plan(opts.middleware)[6..] == [];
    return SUCCESS, done + [PatchMiddleware];
  }
}

module InstallProperties {
  import opened Wrappers
  import opened PhpArray
  import opened Disk
  import opened Install
  import Path
  import ComposeMerge

  // ---- the pipeline ----

  /** Every one of `steps` completes, each run from the context the one before left. */
  ghost predicate AllComplete(steps: seq<Step>, sem: Semantics, c: Context)
    decreases |steps|
  {
    |steps| == 0
    || (sem(steps[0], c).ok
        && AllComplete(steps[1..], sem, sem(steps[0], c).next))
  }

  /** The context after running `steps` one after the other from `c`. */
  ghost function ContextAfter(steps: seq<Step>, sem: Semantics, c: Context): Context
    decreases |steps|
  {
    if |steps| == 0 then c else ContextAfter(steps[1..], sem, sem(steps[0], c).next)
  }

  /**
   * A run starts its steps in order, starts at least one, returns SUCCESS or
   * FAILURE, and returns SUCCESS exactly when every step completes, having
   * started them all.
   */
  lemma {:induction false} RunStepsFollowsSteps(steps: seq<Step>, sem: Semantics, c: Context)
    ensures var o := RunSteps(steps, sem, c);
      && (o.code == SUCCESS || o.code == FAILURE)
      && |o.trace| <= |steps| && o.trace == steps[..|o.trace|]
      && (|steps| > 0 ==> |o.trace| > 0)
      && (o.code == SUCCESS <==> AllComplete(steps, sem, c))
      && (o.code == SUCCESS ==> o.trace == steps && o.disk == ContextAfter(steps, sem, c).disk)
    decreases |steps|
  {
    if |steps| > 0 {
      var o := sem(steps[0], c);
      if o.ok {
        RunStepsFollowsSteps(steps[1..], sem, o.next);
        var rest := RunSteps(steps[1..], sem, o.next);
        assert steps == [steps[0]] + steps[1..];
        assert steps[..|rest.trace| + 1] == [steps[0]] + steps[1..][..|rest.trace|];
      }
    }
  }

  /**
   * A run that fails stops at the step that throws: every step before it
   * completed, the last step started is the one that threw, and the disk is
   * the one that step left.
   */
  lemma {:induction false} RunStepsStopsAtFailure(steps: seq<Step>, sem: Semantics, c: Context)
    ensures RunSteps(steps, sem, c).code == FAILURE ==> 0 < |RunSteps(steps, sem, c).trace| <= |steps|
    ensures var o := RunSteps(steps, sem, c);
      o.code == FAILURE ==>
        var n := |o.trace|;
        var before := ContextAfter(steps[..n - 1], sem, c);
        && AllComplete(steps[..n - 1], sem, c)
        && !sem(steps[n - 1], before).ok
        && o.disk == sem(steps[n - 1], before).next.disk
    decreases |steps|
  {
    if |steps| > 0 {
      var o := sem(steps[0], c);
      if o.ok {
        RunStepsStopsAtFailure(steps[1..], sem, o.next);
        var rest := RunSteps(steps[1..], sem, o.next);
        if rest.code == FAILURE {
          var n := |rest.trace| + 1;
          assert steps[..n - 1][1..] == steps[1..][..n - 2];
          assert steps[..n - 1][0] == steps[0];
          assert steps[n - 1] == steps[1..][n - 2];
        }
      } else {
        assert steps[..0] == [];
      }
    }
  }

  /** `handle` starts at least one step, in the order of the plan, and SUCCESS means every step completed. */
  lemma RunFollowsPlan(opts: Options, env: Environment, d: Disk)
    ensures var o := Run(opts, env, d);
      && (o.code == SUCCESS || o.code == FAILURE)
      && 0 < |o.trace| <= |Plan(opts.middleware)|
      && o.trace == Plan(opts.middleware)[..|o.trace|]
      && (o.code == SUCCESS <==> AllComplete(Plan(opts.middleware), Steps(opts, env), Context(d, "", [], [])))
      && (o.code == SUCCESS ==> o.trace == Plan(opts.middleware))
  {
    RunStepsFollowsSteps(Plan(opts.middleware), Steps(opts, env), Context(d, "", [], []));
  }

  /** The middleware patch is started only with `--middleware`, and a successful run with it has patched. */
  lemma MiddlewareOnlyWhenAsked(opts: Options, env: Environment, d: Disk)
    ensures PatchMiddleware in Run(opts, env, d).trace ==> opts.middleware
    ensures opts.middleware && Run(opts, env, d).code == SUCCESS ==> PatchMiddleware in Run(opts, env, d).trace
  {
    RunFollowsPlan(opts, env, d);
    var o := Run(opts, env, d);
    PrefixMembers(o.trace, Plan(opts.middleware), PatchMiddleware);
    if opts.middleware && o.code == SUCCESS {
      assert o.trace[5] == PatchMiddleware;
    }
  }

  lemma PrefixMembers(trace: seq<Step>, plan: seq<Step>, s: Step)
    requires |trace| <= |plan| && trace == plan[..|trace|]
    ensures s in trace ==> s in plan
  {
    if s in trace {
      var i :| 0 <= i < |trace| && trace[i] == s;
      assert plan[i] == s;
    }
  }

  // ---- provisioning ----

  /** `is_dir($p) || mkdir($p, 0755, true)` holds. */
  predicate Creatable(d: Disk, p: string)
  {
    p in d.dirs || CanCreate(d, p)
  }

  /**
   * Provisioning succeeds exactly when the directory resolves to an absolute
   * path and it and its two subdirectories each exist already or can be
   * created; then it returns that path and the three directories exist.
   * Whether the `.gitignore` markers could be written plays no part.
   */
  lemma ProvisionSucceedsIff(opts: Options, env: Environment, d: Disk)
    ensures var a := Path.Absolute(opts.directory, env.separator, env.realpath, env.cwd);
      Provision(opts, env, d).directory.Some? <==>
        && a.Some?
        && Path.IsAbsolute(a.value, env.realpath, env.wrappers, Existing(d))
        && Creatable(d, a.value)
        && Creatable(d, CertificatesDir(a.value))
        && Creatable(d, AuthoritiesDir(a.value))
    ensures var r := Provision(opts, env, d);
      r.directory.Some? ==>
        && r.directory == Path.Absolute(opts.directory, env.separator, env.realpath, env.cwd)
        && r.directory.value in r.disk.dirs
        && CertificatesDir(r.directory.value) in r.disk.dirs
        && AuthoritiesDir(r.directory.value) in r.disk.dirs
  {
    var a := Path.Absolute(opts.directory, env.separator, env.realpath, env.cwd);
    if a.Some? && Path.IsAbsolute(a.value, env.realpath, env.wrappers, Existing(d)) {
      var dir := a.value;
      DirectoriesDiffer(dir);
      var e1 := EnsureDirectory(d, dir);
      if e1.Some? {
        var e2 := EnsureDirectory(e1.value, CertificatesDir(dir));
        if e2.Some? {
          var e3 := EnsureDirectory(e2.value, AuthoritiesDir(dir));
          if e3.Some? {
            assert Provision(opts, env, d) == Provisioned(Some(dir), WriteMarkers(e3.value, dir));
            WriteMarkersKeeps(e3.value, dir);
          } else {
            assert Provision(opts, env, d).directory.None?;
          }
        } else {
          assert Provision(opts, env, d).directory.None?;
        }
      } else {
        assert Provision(opts, env, d).directory.None?;
      }
    }
  }

  /** The volume directory and its two subdirectories are three different paths. */
  lemma DirectoriesDiffer(dir: string)
    ensures CertificatesDir(dir) != dir && AuthoritiesDir(dir) != dir
    ensures CertificatesDir(dir) != AuthoritiesDir(dir)
  {
    LongerPath(dir, "/certificates");
    LongerPath(dir, "/authorities");
    assert CertificatesDir(dir)[|dir| + 1] == 'c';
    assert AuthoritiesDir(dir)[|dir| + 1] == 'a';
  }

  lemma LongerPath(dir: string, suffix: string)
    requires |suffix| > 0
    ensures dir + suffix != dir
  {
    assert |dir + suffix| > |dir|;
  }

  /**
   * Provisioning only adds directories and writes the two markers: every
   * other file is as it was, and a failed provisioning writes no file.
   */
  lemma ProvisionTouchesOnlyMarkers(opts: Options, env: Environment, d: Disk)
    ensures var r := Provision(opts, env, d).disk;
      && r.unwritable == d.unwritable
      && d.dirs <= r.dirs
    ensures Provision(opts, env, d).directory.None? ==> Provision(opts, env, d).disk.files == d.files
    ensures var r := Provision(opts, env, d);
      r.directory.Some? ==>
        forall p :: p != CertificatesMarker(r.directory.value) && p != AuthoritiesMarker(r.directory.value) ==>
          (p in r.disk.files <==> p in d.files) && (p in d.files ==> r.disk.files[p] == d.files[p])
  {
    var a := Path.Absolute(opts.directory, env.separator, env.realpath, env.cwd);
    if a.Some? && Path.IsAbsolute(a.value, env.realpath, env.wrappers, Existing(d)) {
      var dir := a.value;
      var e1 := EnsureDirectory(d, dir);
      if e1.Some? {
        var e2 := EnsureDirectory(e1.value, CertificatesDir(dir));
        if e2.Some? {
          var e3 := EnsureDirectory(e2.value, AuthoritiesDir(dir));
          if e3.Some? {
            assert Provision(opts, env, d) == Provisioned(Some(dir), WriteMarkers(e3.value, dir));
            WriteMarkersKeeps(e3.value, dir);
          }
        }
      }
    }
  }

  /** The marker writes change no directory and no file but the two markers. */
  lemma WriteMarkersKeeps(d: Disk, dir: string)
    ensures var w := WriteMarkers(d, dir);
      && w.dirs == d.dirs && w.unwritable == d.unwritable
      && forall p :: p != CertificatesMarker(dir) && p != AuthoritiesMarker(dir) ==>
           (p in w.files <==> p in d.files) && (p in d.files ==> w.files[p] == d.files[p])
  {
  }

  /** `is_absolute` only gains from more paths existing. */
  lemma IsAbsoluteGrows(path: string, realpath: string -> Option<string>, wrappers: seq<string>, a: set<string>, b: set<string>)
    requires a <= b && Path.IsAbsolute(path, realpath, wrappers, a)
    ensures Path.IsAbsolute(path, realpath, wrappers, b)
  {
  }

  /** Provisioning a second time changes nothing: what exists is accepted, and the markers are rewritten as they were. */
  lemma ProvisionIdempotent(opts: Options, env: Environment, d: Disk)
    requires Provision(opts, env, d).directory.Some?
    ensures Provision(opts, env, Provision(opts, env, d).disk) == Provision(opts, env, d)
  {
    var r := Provision(opts, env, d);
    var dir := r.directory.value;
    ProvisionSucceedsIff(opts, env, d);
    var e1 := EnsureDirectory(d, dir).value;
    var e2 := EnsureDirectory(e1, CertificatesDir(dir)).value;
    var e3 := EnsureDirectory(e2, AuthoritiesDir(dir)).value;
    assert r.disk == WriteMarkers(e3, dir);
    WriteMarkersKeeps(e3, dir);
    IsAbsoluteGrows(dir, env.realpath, env.wrappers, Existing(d), Existing(r.disk));
    AlreadyThere(r.disk, dir);
    AlreadyThere(r.disk, CertificatesDir(dir));
    AlreadyThere(r.disk, AuthoritiesDir(dir));
    MarkersAgain(e3, dir);
  }

  lemma AlreadyThere(d: Disk, p: string)
    requires p in d.dirs
    ensures EnsureDirectory(d, p) == Some(d)
  {
  }

  /** Writing the markers onto a disk that already has them leaves it as it is. */
  lemma MarkersAgain(d: Disk, dir: string)
    ensures WriteMarkers(WriteMarkers(d, dir), dir) == WriteMarkers(d, dir)
  {
    var (ok, d1) := WriteFile(d, CertificatesMarker(dir), GitIgnoreContents);
    if ok {
      var w := WriteMarkers(d, dir);
      assert w.files[CertificatesMarker(dir)] == GitIgnoreContents;
      assert WriteFile(w, CertificatesMarker(dir), GitIgnoreContents).1 == w;
    }
  }

  // ---- the compose file ----

  lemma LastCharacter(prefix: string, suffix: string)
    requires |suffix| > 0
    ensures |prefix + suffix| > 0 && (prefix + suffix)[|prefix + suffix| - 1] == suffix[|suffix| - 1]
  {
  }

  /** The paths the run writes, told apart by their last character. */
  lemma PathsDiffer(env: Environment, dir: string)
    ensures ComposeFile(env) != CertificatesMarker(dir) && ComposeFile(env) != AuthoritiesMarker(dir)
    ensures ComposeFile(env) != CaddyfilePath(dir) && ComposeFile(env) != TrustProxiesFile(env)
  {
    LastCharacter(env.basePath + [env.separator], "docker-compose.yml");
    LastCharacter(env.basePath + [env.separator], "app/Http/Middleware/TrustProxies.php");
    LastCharacter(CertificatesDir(dir), "/.gitignore");
    LastCharacter(AuthoritiesDir(dir), "/.gitignore");
    LastCharacter(dir, "/Caddyfile");
  }

  /** The first step of a run in which every step completes. */
  lemma AllCompleteFirst(step: Step, rest: seq<Step>, sem: Semantics, c: Context)
    requires AllComplete([step] + rest, sem, c)
    ensures sem(step, c).ok
    ensures AllComplete(rest, sem, sem(step, c).next)
    ensures ContextAfter([step] + rest, sem, c) == ContextAfter(rest, sem, sem(step, c).next)
  {
    assert ([step] + rest)[1..] == rest;
  }

  /** Provisioning leaves docker-compose.yml as it was. */
  lemma ProvisionKeepsCompose(opts: Options, env: Environment, d: Disk)
    ensures ComposeLoaded(env, Provision(opts, env, d).disk) == ComposeLoaded(env, d)
  {
    var r := Provision(opts, env, d);
    ProvisionTouchesOnlyMarkers(opts, env, d);
    if r.directory.Some? {
      PathsDiffer(env, r.directory.value);
    }
    assert (ComposeFile(env) in r.disk.files <==> ComposeFile(env) in d.files)
        && (ComposeFile(env) in d.files ==> r.disk.files[ComposeFile(env)] == d.files[ComposeFile(env)]);
  }

  /** Writing the Caddyfile leaves docker-compose.yml as it was. */
  lemma CaddyfileKeepsCompose(opts: Options, env: Environment, directory: string, d: Disk)
    ensures ComposeLoaded(env, CaddyfileWritten(opts, env, directory, d).1) == ComposeLoaded(env, d)
  {
    PathsDiffer(env, directory);
  }

  /** Provisioning and the Caddyfile leave docker-compose.yml as it was. */
  lemma ComposeUntouchedBeforeLoad(opts: Options, env: Environment, c0: Context)
    requires RunStep(ProvisionDirectories, opts, env, c0).ok
    ensures var c2 := RunStep(WriteCaddyfile, opts, env, RunStep(ProvisionDirectories, opts, env, c0).next).next;
      ComposeLoaded(env, c2.disk) == ComposeLoaded(env, c0.disk)
  {
    var c1 := RunStep(ProvisionDirectories, opts, env, c0).next;
    ProvisionKeepsCompose(opts, env, c0.disk);
    CaddyfileKeepsCompose(opts, env, c1.directory, c1.disk);
  }

  /** Patching the middleware leaves docker-compose.yml as it was. */
  lemma ComposeUntouchedByPatch(opts: Options, env: Environment, c: Context)
    ensures var after := RunStep(PatchMiddleware, opts, env, c).next.disk;
      (ComposeFile(env) in after.files <==> ComposeFile(env) in c.disk.files)
      && (ComposeFile(env) in c.disk.files ==> after.files[ComposeFile(env)] == c.disk.files[ComposeFile(env)])
  {
    PathsDiffer(env, "");
  }

  /** A completed load holds the document the disk's compose file parses to. */
  lemma LoadedData(opts: Options, env: Environment, c: Context)
    requires RunStep(LoadCompose, opts, env, c).ok
    ensures ComposeLoaded(env, c.disk).Some?
    ensures RunStep(LoadCompose, opts, env, c).next == c.(data := ComposeLoaded(env, c.disk).value)
  {
  }

  lemma MergingDone(c: Context, merged: ComposeMerge.Result<seq<Entry>>)
    requires Merging(c, merged).ok
    ensures merged.Success? && Merging(c, merged).next == c.(merged := merged.value)
  {
  }

  /** A completed save holds the dump of the merged document in the compose file. */
  lemma SavedFile(opts: Options, env: Environment, c: Context)
    requires RunStep(SaveCompose, opts, env, c).ok
    ensures var after := RunStep(SaveCompose, opts, env, c).next.disk;
      ComposeFile(env) in after.files && after.files[ComposeFile(env)] == env.dump(c.merged)
  {
  }

  /** A run that returns SUCCESS completed every step and left the disk the last one left. */
  lemma SuccessMeansAllComplete(steps: seq<Step>, sem: Semantics, c: Context)
    requires RunSteps(steps, sem, c).code == SUCCESS
    ensures AllComplete(steps, sem, c)
    ensures RunSteps(steps, sem, c).disk == ContextAfter(steps, sem, c).disk
  {
    RunStepsFollowsSteps(steps, sem, c);
  }

  /** The contexts `c0` to `c5` are those the first five steps pass on. */
  ghost predicate Stages(sem: Semantics, c0: Context, c1: Context, c2: Context, c3: Context, c4: Context, c5: Context)
  {
    && c1 == sem(ProvisionDirectories, c0).next
    && c2 == sem(WriteCaddyfile, c1).next
    && c3 == sem(LoadCompose, c2).next
    && c4 == sem(MergeCompose, c3).next
    && c5 == sem(SaveCompose, c4).next
  }

  function Tail(middleware: bool): seq<Step>
  {
    if middleware then [PatchMiddleware] else []
  }

  /** In a successful run the first five steps complete, and the rest runs from where they leave off. */
  lemma SuccessfulStages(middleware: bool, sem: Semantics, c0: Context, c1: Context, c2: Context, c3: Context, c4: Context, c5: Context)
    requires RunSteps(Plan(middleware), sem, c0).code == SUCCESS
    requires Stages(sem, c0, c1, c2, c3, c4, c5)
    ensures sem(ProvisionDirectories, c0).ok && sem(LoadCompose, c2).ok
    ensures sem(MergeCompose, c3).ok && sem(SaveCompose, c4).ok
    ensures AllComplete(Tail(middleware), sem, c5)
    ensures RunSteps(Plan(middleware), sem, c0).disk == ContextAfter(Tail(middleware), sem, c5).disk
  {
    SuccessMeansAllComplete(Plan(middleware), sem, c0);
    var r4 := [SaveCompose] + Tail(middleware);
    var r3 := [MergeCompose] + r4;
    var r2 := [LoadCompose] + r3;
    var r1 := [WriteCaddyfile] + r2;
    assert Plan(middleware) == [ProvisionDirectories] + r1;
    AllCompleteFirst(ProvisionDirectories, r1, sem, c0);
    AllCompleteFirst(WriteCaddyfile, r2, sem, c1);
    AllCompleteFirst(LoadCompose, r3, sem, c2);
    AllCompleteFirst(MergeCompose, r4, sem, c3);
    AllCompleteFirst(SaveCompose, Tail(middleware), sem, c4);
  }

  /** When the first five steps complete, the compose file holds the dump of the merge of what it held. */
  lemma ComposeSavedAtStageFive(opts: Options, env: Environment, c0: Context, c1: Context, c2: Context, c3: Context, c4: Context, c5: Context)
    requires Stages(Steps(opts, env), c0, c1, c2, c3, c4, c5)
    requires Steps(opts, env)(ProvisionDirectories, c0).ok && Steps(opts, env)(LoadCompose, c2).ok
    requires Steps(opts, env)(MergeCompose, c3).ok && Steps(opts, env)(SaveCompose, c4).ok
    ensures var data := ComposeLoaded(env, c0.disk);
      && data.Some?
      && ComposeMerge.Merged(data.value, opts.service, opts.directory).Success?
      && ComposeFile(env) in c5.disk.files
      && c5.disk.files[ComposeFile(env)] == env.dump(ComposeMerge.Merged(data.value, opts.service, opts.directory).value)
  {
    ComposeUntouchedBeforeLoad(opts, env, c0);
    LoadedData(opts, env, c2);
    assert c3.data == ComposeLoaded(env, c0.disk).value;
    var merged := ComposeMerge.Merged(c3.data, opts.service, opts.directory);
    MergeStepIs(opts, env, c3);
    MergingDone(c3, merged);
    SavedFile(opts, env, c4);
  }

  /** The middleware patch, when the run goes on to it, leaves docker-compose.yml as it was. */
  lemma TailKeepsCompose(opts: Options, env: Environment, c: Context)
    ensures var after := ContextAfter(Tail(opts.middleware), Steps(opts, env), c).disk;
      (ComposeFile(env) in after.files <==> ComposeFile(env) in c.disk.files)
      && (ComposeFile(env) in c.disk.files ==> after.files[ComposeFile(env)] == c.disk.files[ComposeFile(env)])
  {
    if opts.middleware {
      assert Tail(opts.middleware)[1..] == [];
      ComposeUntouchedByPatch(opts, env, c);
    }
  }

  /**
   * A successful run leaves in docker-compose.yml the dump of the merge of
   * the document the file held before the run: the steps before it do not
   * touch that file and the middleware patch writes another.
   */
  lemma ComposeFileOnSuccess(opts: Options, env: Environment, d: Disk)
    requires Run(opts, env, d).code == SUCCESS
    ensures var data := ComposeLoaded(env, d);
      && data.Some?
      && ComposeMerge.Merged(data.value, opts.service, opts.directory).Success?
      && ComposeFile(env) in Run(opts, env, d).disk.files
      && Run(opts, env, d).disk.files[ComposeFile(env)]
         == env.dump(ComposeMerge.Merged(data.value, opts.service, opts.directory).value)
  {
    var sem := Steps(opts, env);
    var c0 := Context(d, "", [], []);
    var c1 := sem(ProvisionDirectories, c0).next;
    var c2 := sem(WriteCaddyfile, c1).next;
    var c3 := sem(LoadCompose, c2).next;
    var c4 := sem(MergeCompose, c3).next;
    var c5 := sem(SaveCompose, c4).next;
    SuccessfulStages(opts.middleware, sem, c0, c1, c2, c3, c4, c5);
    ComposeSavedAtStageFive(opts, env, c0, c1, c2, c3, c4, c5);
    TailKeepsCompose(opts, env, c5);
  }
}
