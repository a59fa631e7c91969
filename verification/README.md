# grease, modelled in Dafny

grease is a command-line tool that creates and updates GitHub releases and
uploads build artifacts to them. It has four commands: `create-release REPO TAG COMMITISH`,
`update-release REPO TAG`, `upload-assets REPO TAG GLOB_PATTERN` and
`list-files GLOB_PATTERN`. This project models its logic in `main.go`, which has two layers.

- **Argument validation.** This is the `before` step of each command. It checks
  the exact number of positional arguments and splits REPO (`owner/name`) at
  its first `/`. The module `Repository` holds `splitRepositoryName`,
  `validatePositionalArgumentCount` and `validateGitHubToken`. The module
  `Validation` holds the per-command `before` step. The module `Errors` holds
  the error structs and their exit code, which is 64.
- **Command execution.** This is the action of each command. The module
  `Remote` describes the GitHub API as calls (lookup by tag, create, update,
  upload asset). An `Environment` fixes the outcome of every remote call,
  file open and glob. The module `Commands` turns one invocation into its
  result, the ordered log of remote calls it made, and one outcome per
  asset. The action first resolves the asset glob; a glob error aborts.
  A dry run then stops with success. Next comes the primary step:
  create-release creates the release, update-release looks it up by tag
  and then updates it, and upload-assets looks it up by tag. An error in
  that step aborts. Last comes the best-effort upload loop in the module
  `Uploads`. An asset that does not open is skipped, and a failed upload
  is only reported.

The module `CommandProperties` proves properties of whole invocations. A
dry run makes no remote call. Argument errors come before any call and
are the only failures with exit code 64. A failed invocation uploads
nothing. Upload failures never change the result or the calls made. It
also proves the concrete scenarios below:

- create-release `acme/widgets v1.0.0 main` with `--name v1.0.0 --draft` makes
  one create call and succeeds.
- upload-assets whose tag lookup fails returns the lookup error and uploads
  nothing.
- list-files with no match succeeds and makes no call.

Three behaviours of the code differ from what its own text suggests, and
the model follows the code:

- The blank-repo guard's error message (main.go:791) says a REPO with
  nothing after its first `/` is rejected. In fact `acme/` is accepted with
  an empty repository name. See Findings.
- No command checks the GitHub token. `validateGitHubToken` is defined but
  never called. An empty token is sent to the API as it is
  (`CommandProperties.EmptyTokenStillReachesTheApi`).
- A malformed glob pattern surfaces as the standard library's own error.
  That error has no exit code. The `badGlobPatternError` struct, which has
  exit code 64, is never constructed
  (`CommandProperties.BadGlobPatternNeverReturned`).

## Model

| member | source | states |
|---|---|---|
| Errors.ExitCode | main.go:834-848 | each of grease's own error structs reports exit code 64; errors of foreign types have no exit code |
| Repository.IndexOf | main.go:775 | the first-`/` search returns -1 exactly when there is no `/`, and otherwise a position holding `/` with none before it |
| Repository.SplitRepositoryName | main.go:774-799 | parsing fails with a bad-argument error for "REPO" exactly when there is no `/` or the first `/` is at position 0; on success the owner is non-empty, has no `/`, and owner + "/" + repo is the input |
| Repository.SplitJoin | main.go:787-798 | splitting undoes joining: any owner without `/` joined with any repo (which may contain `/`) splits back into the same two parts |
| Repository.BlankRepoGuardUnreachable | main.go:787-793 | the start of the repository part never exceeds the input length, so the blank-repo error is never returned |
| Repository.TrailingSlashAccepted | main.go:787-798 | `owner/` with a valid owner is accepted with an empty repository part |
| Repository.SplitExampleTimberio | main_test.go:7-24 | "timberio/grease" splits into "timberio" and "grease" |
| Repository.SplitExampleTrailingSlash | main.go:787-798 | "acme/" splits into "acme" and the empty string |
| Repository.SplitRepositoryNameCorrected | main.go:790-793 | with the guard as intended, a successful split has a non-empty owner and a non-empty repository, and fails exactly when the first `/` is missing, first or last |
| Repository.CorrectionOnlyRejectsBlankRepo | main.go:787-798 | the corrected parser differs from the one as written only on inputs the latter accepts with an empty repository, which it rejects with the blank-repo reason |
| Repository.ValidatePositionalArgumentCount | main.go:801-809 | fails exactly when the received count differs from the expected one, with an error carrying both numbers |
| Repository.ValidateGitHubToken | main.go:811-817 | fails exactly when the token is empty, with a missing-argument error for "--github-token" and exit code 64 |
| Validation.Before | main.go:251-453 | a wrong argument count (3, 2, 3 and 1 expected) gives an error carrying both counts before REPO is looked at; otherwise the step fails exactly when REPO is malformed; every error has exit code 64; on success owner/repository rejoin to REPO and tag, commitish and glob pattern are the positional values |
| Uploads.UploadLoop | main.go:539-558 | exactly one upload per asset that opens, in list order, to the given release under the asset's base name; one outcome per listed asset decided by its own open and upload replies |
| Uploads.AttemptedAppend | main.go:539-546 | the assets attempted from a concatenated list are those of the first part followed by those of the second |
| Uploads.AttemptedMembers | main.go:539-546 | a path is attempted exactly when it is listed and opens |
| Uploads.AttemptedCount | main.go:539-552 | every listed occurrence of an openable path is attempted exactly once; a path that does not open never is |
| Uploads.SkipOnlyThatAsset | main.go:541-546 | a file that fails to open is skipped alone; the assets before and after it are still attempted |
| Uploads.UploadRepliesOnlyChangeReport | main.go:552-557 | upload replies do not change the calls made, and change only the reported outcome of the asset whose reply changed |
| Commands.RunCreateRelease | main.go:455-561 | a glob error returns before the dry-run check with no call; a dry run makes no call; success exactly when the glob and (unless dry) the create succeed; the first call creates the release with tag, commitish, name, notes, draft and pre-release; a create error is returned with no upload; otherwise the remaining calls are the upload loop's for the created release |
| Commands.RunUpdateRelease | main.go:563-672 | as create-release, with a lookup by tag then an update without commitish of the found release; an error in either is returned and nothing is uploaded; uploads go to the looked-up release |
| Commands.RunUploadAssets | main.go:674-752 | globs the positional pattern; a dry run makes no call; a lookup error is returned with no upload; otherwise uploads go to the looked-up release; upload errors never make it fail |
| Commands.Run | main.go:117-205 | an invocation whose `before` step fails returns that error with no call and no asset report; otherwise it is exactly the action of its command applied to the values the `before` step stored |
| Commands.RunListFiles | main.go:754-772 | makes no remote call and succeeds exactly when the glob succeeds, an empty match list included |
| CommandProperties.ValidationPrecedesAnyCall | main.go:251-267 | an argument error is returned with exit code 64 before any remote call or asset upload |
| CommandProperties.ExitCode64OnlyForArguments | main.go:834-848 | a failed invocation has exit code 64 exactly when its arguments failed validation |
| CommandProperties.BadGlobPatternNeverReturned | main.go:846-848 | no invocation returns the glob-pattern error kind |
| CommandProperties.DryRunMakesNoCalls | main.go:521-524 | a dry run makes no remote call, and fails only on its arguments or on the glob |
| CommandProperties.FailureMeansNoUploads | main.go:528-532 | a failed invocation attempted no upload |
| CommandProperties.UploadFailuresNeverChangeResult | main.go:552-560 | replacing every upload reply changes neither the result nor the calls of any invocation |
| CommandProperties.EmptyTokenStillReachesTheApi | main.go:475-528 | with an empty token and valid arguments, create-release still calls the API with the empty token |
| CommandProperties.CreateReleaseScenario | main.go:455-561 | create-release acme/widgets v1.0.0 main --name v1.0.0 --draft with no assets makes exactly one create call with those fields, uploads nothing and succeeds |
| CommandProperties.UploadAssetsLookupFailsScenario | main.go:724-728 | upload-assets whose tag lookup fails returns the lookup error after that single call, uploading nothing |
| CommandProperties.ListFilesNoMatches | main.go:754-772 | list-files with a pattern matching nothing succeeds with no call |

## Findings

| source | as written | input that shows it | evidently intended | confidence | as-written member | corrected member |
|---|---|---|---|---|---|---|
| main.go:787-793 | the blank-repository guard tests `repoStartIndex > len(name)`, which never holds since the first `/` lies inside the input | `acme/` is accepted as owner `acme` with an empty repository name (Repository.SplitExampleTrailingSlash) | reject a REPO with nothing after the first `/`, as the guard's error message says | high; not executed | Repository.SplitRepositoryName | Repository.SplitRepositoryNameCorrected |

The model's validation layer (`Validation.Before`) keeps the parser as
written, so that it describes the program as it behaves. The corrected
parser comes with its own proved contract. `Repository.CorrectionOnlyRejectsBlankRepo`
proves the two parsers differ only on the inputs the finding names.

## Left out

- Commands.Run: it assumes that the framework runs a command's action only when its `before` step returned no error, and returns that error unchanged. That is the framework's behaviour, which is not part of this model.
- The command-line framework (`cli.NewApp`, flag declarations, `ctx.Set`, `ctx.String`) is not modelled. Positional arguments are a sequence and flags a plain record. `ctx.Set` only fails for an undefined flag, and every flag it sets is defined, so it is modelled as never failing.
- Flags are not resolved from the environment: `GITHUB_TOKEN` and `DEBUG` are not read.
- The `--debug` flag and all printed messages are left out. They change no result or call. list-files' printed lines are left out for the same reason.
- What the process exit status is for a foreign error is left out. The framework decides it.
- github.go (the go-github and oauth2 clients) is not part of this model. Each remote call is a recorded call whose reply the environment fixes.
- files.go's `findFiles` is `filepath.Glob`, whose matching rules are not modelled. The environment answers each pattern with a list of paths or an error.
- `path.Base` is the environment's `basename`. `os.Open` is its `opens`.
- The opened files are never closed in the source. File handles are not modelled.
- Go strings are byte strings and `strings.Index` counts bytes. The model counts characters. The two agree on where the text is split, because `/` never occurs inside a multi-byte UTF-8 sequence.
- A GitHub reply with a success status but no release id would make the source dereference a nil pointer. That case is not modelled: a successful reply always carries an id.
- Uploads.UploadLoop: open and upload replies are given per path, not per attempt. A path listed twice therefore gets the same outcome both times. `filepath.Glob` never lists a path twice.
- The `Error()` message texts are not modelled. Only the error kinds and their data are modelled, including the bad-argument reasons.
