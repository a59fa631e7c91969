/** The actions of the four commands and the dispatcher that runs a command's
    `before` step and then its action. An action resolves its asset list,
    stops there on a dry run, performs its primary remote step (create; or
    lookup then update; or lookup) and finally runs the best-effort upload
    loop. */
module Commands {
  import opened Errors
  import opened Remote
  import opened Uploads
  import opened Validation

  /** The flags of an invocation; flags a command does not define read as
      their zero value. */
  datatype Flags = Flags(
    dryRun: bool,
    name: string,
    notes: string,
    draft: bool,
    preRelease: bool,
    assets: string,
    gitHubToken: string)

  /** What an invocation returns, the remote calls it made in order, and the
      outcome of each asset in its upload loop. */
  datatype Execution = Execution(result: Outcome, calls: seq<Call>, report: seq<AssetOutcome>)

  /** No call in `calls` is an asset upload. */
  predicate NoUploads(calls: seq<Call>) {
    forall c :: c in calls ==> !c.UploadAsset?
  }

  function RepoOf(s: Settings): Repo {
    Repo(s.owner, s.repository)
  }

  /** The release create-release submits. */
  function NewRelease(s: Settings, f: Flags): Release {
    Release(s.tag, Some(s.commitish), f.name, f.notes, f.draft, f.preRelease)
  }

  /** The release update-release submits: no target commitish. */
  function EditedRelease(s: Settings, f: Flags): Release {
    Release(s.tag, None, f.name, f.notes, f.draft, f.preRelease)
  }

  /** create-release: glob the `--assets` pattern, create the release, upload
      the assets to the created release. */
  function RunCreateRelease(s: Settings, f: Flags, env: Environment): (x: Execution)
    ensures env.glob(f.assets).Failure? ==>
              x == Execution(Fail(GlobError(env.glob(f.assets).message)), [], [])
    ensures f.dryRun ==> x.calls == [] && x.report == []
    ensures x.result.Pass? <==> env.glob(f.assets).Answer? && (f.dryRun || env.create.Answer?)
    ensures x.result.Fail? ==> NoUploads(x.calls) && x.report == []
    ensures env.glob(f.assets).Answer? && !f.dryRun ==>
              |x.calls| >= 1 && x.calls[0] == CreateRelease(RepoOf(s), NewRelease(s, f), f.gitHubToken)
    ensures env.glob(f.assets).Answer? && !f.dryRun && env.create.Failure? ==>
              x.result == Fail(ApiError(env.create.message)) && |x.calls| == 1
    ensures env.glob(f.assets).Answer? && !f.dryRun && env.create.Answer? ==>
              && UploadsFor(x.calls[1..], RepoOf(s), env.create.value, f.gitHubToken, env.glob(f.assets).value, env)
              && ReportFor(x.report, env.glob(f.assets).value, env)
  {
    match env.glob(f.assets)
    case Failure(message) => Execution(Fail(GlobError(message)), [], [])
    case Answer(assets) =>
      if f.dryRun then Execution(Pass, [], [])
      else
        var create := CreateRelease(RepoOf(s), NewRelease(s, f), f.gitHubToken);
        match env.create
        case Failure(message) => Execution(Fail(ApiError(message)), [create], [])
        case Answer(releaseId) =>
          var loop := UploadLoop(RepoOf(s), releaseId, f.gitHubToken, assets, env);
          assert ([create] + loop.calls)[1..] == loop.calls;
          Execution(Pass, [create] + loop.calls, loop.outcomes)
  }

  /** update-release: glob the `--assets` pattern, look the release up by
      tag, update it, and upload the assets to the release found by the
      lookup. */
  function RunUpdateRelease(s: Settings, f: Flags, env: Environment): (x: Execution)
    ensures env.glob(f.assets).Failure? ==>
              x == Execution(Fail(GlobError(env.glob(f.assets).message)), [], [])
    ensures f.dryRun ==> x.calls == [] && x.report == []
    ensures x.result.Pass? <==>
              env.glob(f.assets).Answer? && (f.dryRun || (env.lookup.Answer? && env.update.Answer?))
    ensures x.result.Fail? ==> NoUploads(x.calls) && x.report == []
    ensures env.glob(f.assets).Answer? && !f.dryRun ==>
              |x.calls| >= 1 && x.calls[0] == LookupByTag(RepoOf(s), s.tag, f.gitHubToken)
    ensures env.glob(f.assets).Answer? && !f.dryRun && env.lookup.Failure? ==>
              x.result == Fail(ApiError(env.lookup.message)) && |x.calls| == 1
    ensures env.glob(f.assets).Answer? && !f.dryRun && env.lookup.Answer? ==>
              |x.calls| >= 2 &&
              x.calls[1] == UpdateRelease(RepoOf(s), env.lookup.value, EditedRelease(s, f), f.gitHubToken)
    ensures env.glob(f.assets).Answer? && !f.dryRun && env.lookup.Answer? && env.update.Failure? ==>
              x.result == Fail(ApiError(env.update.message)) && |x.calls| == 2
    ensures env.glob(f.assets).Answer? && !f.dryRun && env.lookup.Answer? && env.update.Answer? ==>
              && UploadsFor(x.calls[2..], RepoOf(s), env.lookup.value, f.gitHubToken, env.glob(f.assets).value, env)
              && ReportFor(x.report, env.glob(f.assets).value, env)
  {
    match env.glob(f.assets)
    case Failure(message) => Execution(Fail(GlobError(message)), [], [])
    case Answer(assets) =>
      if f.dryRun then Execution(Pass, [], [])
      else
        var lookup := LookupByTag(RepoOf(s), s.tag, f.gitHubToken);
        match env.lookup
        case Failure(message) => Execution(Fail(ApiError(message)), [lookup], [])
        case Answer(releaseId) =>
          var update := UpdateRelease(RepoOf(s), releaseId, EditedRelease(s, f), f.gitHubToken);
          match env.update
          case Failure(message) => Execution(Fail(ApiError(message)), [lookup, update], [])
          case Answer(_) =>
            var loop := UploadLoop(RepoOf(s), releaseId, f.gitHubToken, assets, env);
            assert ([lookup, update] + loop.calls)[2..] == loop.calls;
            Execution(Pass, [lookup, update] + loop.calls, loop.outcomes)
  }

  /** upload-assets: glob the positional pattern, look the release up by tag,
      and upload the assets to it. */
  function RunUploadAssets(s: Settings, f: Flags, env: Environment): (x: Execution)
    ensures env.glob(s.globPattern).Failure? ==>
              x == Execution(Fail(GlobError(env.glob(s.globPattern).message)), [], [])
    ensures f.dryRun ==> x.calls == [] && x.report == []
    ensures x.result.Pass? <==> env.glob(s.globPattern).Answer? && (f.dryRun || env.lookup.Answer?)
    ensures x.result.Fail? ==> NoUploads(x.calls) && x.report == []
    ensures env.glob(s.globPattern).Answer? && !f.dryRun ==>
              |x.calls| >= 1 && x.calls[0] == LookupByTag(RepoOf(s), s.tag, f.gitHubToken)
    ensures env.glob(s.globPattern).Answer? && !f.dryRun && env.lookup.Failure? ==>
              x.result == Fail(ApiError(env.lookup.message)) && |x.calls| == 1
    ensures env.glob(s.globPattern).Answer? && !f.dryRun && env.lookup.Answer? ==>
              && UploadsFor(x.calls[1..], RepoOf(s), env.lookup.value, f.gitHubToken, env.glob(s.globPattern).value, env)
              && ReportFor(x.report, env.glob(s.globPattern).value, env)
  {
    match env.glob(s.globPattern)
    case Failure(message) => Execution(Fail(GlobError(message)), [], [])
    case Answer(assets) =>
      if f.dryRun then Execution(Pass, [], [])
      else
        var lookup := LookupByTag(RepoOf(s), s.tag, f.gitHubToken);
        match env.lookup
        case Failure(message) => Execution(Fail(ApiError(message)), [lookup], [])
        case Answer(releaseId) =>
          var loop := UploadLoop(RepoOf(s), releaseId, f.gitHubToken, assets, env);
          assert ([lookup] + loop.calls)[1..] == loop.calls;
          Execution(Pass, [lookup] + loop.calls, loop.outcomes)
  }

  /** list-files: glob the positional pattern and list the matches; no remote
      call is made, and an empty match list is a success. */
  function RunListFiles(s: Settings, env: Environment): (x: Execution)
    ensures x.calls == [] && x.report == []
    ensures x.result.Pass? <==> env.glob(s.globPattern).Answer?
    ensures x.result.Fail? ==> x.result.error == GlobError(env.glob(s.globPattern).message)
  {
    match env.glob(s.globPattern)
    case Failure(message) => Execution(Fail(GlobError(message)), [], [])
    case Answer(_) => Execution(Pass, [], [])
  }

  /** One invocation of `cmd`: its `before` step, then its action. */
  function Run(cmd: Command, args: seq<string>, f: Flags, env: Environment): (x: Execution)
    ensures Before(cmd, args).Err? ==> x == Execution(Fail(Before(cmd, args).error), [], [])
    ensures Before(cmd, args).Ok? && cmd == CreateReleaseCommand ==>
              x == RunCreateRelease(Before(cmd, args).value, f, env)
    ensures Before(cmd, args).Ok? && cmd == UpdateReleaseCommand ==>
              x == RunUpdateRelease(Before(cmd, args).value, f, env)
    ensures Before(cmd, args).Ok? && cmd == UploadAssetsCommand ==>
              x == RunUploadAssets(Before(cmd, args).value, f, env)
    ensures Before(cmd, args).Ok? && cmd == ListFilesCommand ==>
              x == RunListFiles(Before(cmd, args).value, env)
  {
    match Before(cmd, args)
    case Err(e) => Execution(Fail(e), [], [])
    case Ok(s) =>
      match cmd
      case CreateReleaseCommand => RunCreateRelease(s, f, env)
      case UpdateReleaseCommand => RunUpdateRelease(s, f, env)
      case UploadAssetsCommand => RunUploadAssets(s, f, env)
      case ListFilesCommand => RunListFiles(s, env)
  }
}
