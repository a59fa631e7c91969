/** Properties of whole invocations: what validation, dry runs, primary-step
    failures and upload failures do to the result and to the remote calls. */
module CommandProperties {
  import opened Errors
  import opened Remote
  import opened Uploads
  import opened Validation
  import opened Commands
  import Repository

  /** An invocation whose arguments fail validation returns that error, with
      exit code 64, before any remote call or asset is touched. */
  lemma ValidationPrecedesAnyCall(cmd: Command, args: seq<string>, f: Flags, env: Environment)
    requires Before(cmd, args).Err?
    ensures Run(cmd, args, f, env) == Execution(Fail(Before(cmd, args).error), [], [])
    ensures ExitCode(Run(cmd, args, f, env).result.error) == Some(64)
  {
  }

  /** An invocation fails with exit code 64 exactly when its arguments fail
      validation; every later failure is a foreign error with no exit code
      of its own. */
  lemma ExitCode64OnlyForArguments(cmd: Command, args: seq<string>, f: Flags, env: Environment)
    requires Run(cmd, args, f, env).result.Fail?
    ensures ExitCode(Run(cmd, args, f, env).result.error) == Some(64) <==> Before(cmd, args).Err?
  {
  }

  /** The glob-pattern error kind is never returned: a bad pattern surfaces as
      the glob's own error. */
  lemma BadGlobPatternNeverReturned(cmd: Command, args: seq<string>, f: Flags, env: Environment)
    ensures !(Run(cmd, args, f, env).result.Fail? && Run(cmd, args, f, env).result.error.BadGlobPattern?)
  {
  }

  /** A dry run makes no remote call; it can still fail, but only on its
      arguments or on the glob, which is resolved before the dry-run check. */
  lemma DryRunMakesNoCalls(cmd: Command, args: seq<string>, f: Flags, env: Environment)
    requires f.dryRun
    ensures Run(cmd, args, f, env).calls == []
    ensures Run(cmd, args, f, env).result.Fail? ==>
              Before(cmd, args).Err? || Run(cmd, args, f, env).result.error.GlobError?
  {
  }

  /** Whenever an invocation fails, no asset upload was attempted. */
  lemma FailureMeansNoUploads(cmd: Command, args: seq<string>, f: Flags, env: Environment)
    requires Run(cmd, args, f, env).result.Fail?
    ensures NoUploads(Run(cmd, args, f, env).calls)
    ensures Run(cmd, args, f, env).report == []
  {
  }

  /** Upload failures never change the result or the calls made: replacing
      every upload reply leaves both as they were. */
  lemma UploadFailuresNeverChangeResult(cmd: Command, args: seq<string>, f: Flags, env: Environment,
                                        upload: string -> Option<string>)
    ensures Run(cmd, args, f, env.(upload := upload)).result == Run(cmd, args, f, env).result
    ensures Run(cmd, args, f, env.(upload := upload)).calls == Run(cmd, args, f, env).calls
  {
  }

  /** The missing-token check is never applied: with an empty token and valid
      arguments, create-release still calls the API, with the empty token. */
  lemma EmptyTokenStillReachesTheApi(args: seq<string>, f: Flags, env: Environment)
    requires Before(CreateReleaseCommand, args).Ok?
    requires !f.dryRun && f.gitHubToken == ""
    requires env.glob(f.assets).Answer?
    ensures |Run(CreateReleaseCommand, args, f, env).calls| >= 1
    ensures Run(CreateReleaseCommand, args, f, env).calls[0].CreateRelease?
    ensures Run(CreateReleaseCommand, args, f, env).calls[0].token == ""
  {
  }

  /** The REPO argument of the scenarios below. */
  lemma AcmeWidgetsSplits()
    ensures Repository.SplitRepositoryName("acme/widgets") == Ok(("acme", "widgets"))
  {
    Repository.SplitJoin("acme", "widgets");
    assert "acme" + "/" + "widgets" == "acme/widgets";
  }

  /** create-release "acme/widgets" "v1.0.0" "main" --name "v1.0.0" --draft,
      with no assets flag (an empty pattern globs to nothing): one create
      call with exactly those fields, no upload, success. */
  lemma CreateReleaseScenario(token: string, env: Environment)
    requires env.glob("") == Answer([]) && env.create.Answer?
    ensures Run(CreateReleaseCommand, ["acme/widgets", "v1.0.0", "main"],
                Flags(false, "v1.0.0", "", true, false, "", token), env)
            == Execution(Pass,
                         [CreateRelease(Repo("acme", "widgets"),
                                        Release("v1.0.0", Some("main"), "v1.0.0", "", true, false),
                                        token)],
                         [])
  {
    var args := ["acme/widgets", "v1.0.0", "main"];
    var f := Flags(false, "v1.0.0", "", true, false, "", token);
    var s := Settings("acme", "widgets", "v1.0.0", "main", "");
    AcmeWidgetsSplits();
    assert Before(CreateReleaseCommand, args) == Ok(s);
    var x := RunCreateRelease(s, f, env);
    assert x.calls[1..] == [];
  }

  /** upload-assets "acme/widgets" "v1.0.0" with a tarball pattern, when the tag
      lookup fails: the lookup error is returned and nothing is uploaded. */
  lemma UploadAssetsLookupFailsScenario(f: Flags, env: Environment)
    requires !f.dryRun
    requires env.glob("dist/*.tar.gz").Answer? && env.lookup.Failure?
    ensures Run(UploadAssetsCommand, ["acme/widgets", "v1.0.0", "dist/*.tar.gz"], f, env)
            == Execution(Fail(ApiError(env.lookup.message)),
                         [LookupByTag(Repo("acme", "widgets"), "v1.0.0", f.gitHubToken)],
                         [])
  {
    var args := ["acme/widgets", "v1.0.0", "dist/*.tar.gz"];
    AcmeWidgetsSplits();
    assert Before(UploadAssetsCommand, args) == Ok(Settings("acme", "widgets", "v1.0.0", "master", "dist/*.tar.gz"));
  }

  /** list-files with a pattern matching nothing succeeds without any call. */
  lemma ListFilesNoMatches(pattern: string, f: Flags, env: Environment)
    requires env.glob(pattern) == Answer([])
    ensures Run(ListFilesCommand, [pattern], f, env) == Execution(Pass, [], [])
  {
  }
}
