/** The `before` step of each command: check the number of positional
    arguments, parse REPO, and record the positional values the command's
    action reads back. */
module Validation {
  import opened Errors
  import opened Repository

  /** The four commands grease offers. */
  datatype Command =
    | CreateReleaseCommand
    | UpdateReleaseCommand
    | UploadAssetsCommand
    | ListFilesCommand

  /** The number of positional arguments each command takes:
      REPO TAG COMMITISH, REPO TAG, REPO TAG GLOB_PATTERN and GLOB_PATTERN. */
  function ExpectedArgumentCount(cmd: Command): nat {
    match cmd
    case CreateReleaseCommand => 3
    case UpdateReleaseCommand => 2
    case UploadAssetsCommand => 3
    case ListFilesCommand => 1
  }

  /** The hidden per-command values the `before` step stores for the action
      to read; a value never stored keeps its default. */
  datatype Settings = Settings(
    owner: string,
    repository: string,
    tag: string,
    commitish: string,
    globPattern: string)

  /** Defaults of the hidden values; the target commitish defaults to
      `master`. */
  const Unset := Settings("", "", "", "master", "")

  /** The `before` step of `cmd` applied to its positional arguments. */
  function Before(cmd: Command, args: seq<string>): (r: Result<Settings>)
    ensures r.Ok? ==> |args| == ExpectedArgumentCount(cmd)
    ensures |args| != ExpectedArgumentCount(cmd) ==>
              r == Err(IncorrectArgumentNumber(ExpectedArgumentCount(cmd), |args|))
    ensures cmd == ListFilesCommand ==> (r.Ok? <==> |args| == 1)
    ensures cmd != ListFilesCommand && |args| == ExpectedArgumentCount(cmd) ==>
              (r.Ok? <==> '/' in args[0] && args[0][0] != '/')
    ensures cmd != ListFilesCommand && |args| == ExpectedArgumentCount(cmd) && r.Err? ==>
              r.error.BadArgument? && r.error.argument == "REPO"
    ensures r.Err? ==> ExitCode(r.error) == Some(64)
    ensures r.Ok? && cmd != ListFilesCommand ==>
              && r.value.owner + "/" + r.value.repository == args[0]
              && r.value.owner != "" && '/' !in r.value.owner
              && r.value.tag == args[1]
    ensures r.Ok? && cmd == CreateReleaseCommand ==> r.value.commitish == args[2]
    ensures r.Ok? && cmd == UploadAssetsCommand ==> r.value.globPattern == args[2]
    ensures r.Ok? && cmd == ListFilesCommand ==> r.value.globPattern == args[0]
  {
    var count := ValidatePositionalArgumentCount(|args|, ExpectedArgumentCount(cmd));
    if count.Fail? then Err(count.error)
    else if cmd == ListFilesCommand then Ok(Unset.(globPattern := args[0]))
    else
      match SplitRepositoryName(args[0])
      case Err(e) => Err(e)
      case Ok((owner, repo)) =>
        var s := Unset.(owner := owner, repository := repo, tag := args[1]);
        match cmd
        case CreateReleaseCommand => Ok(s.(commitish := args[2]))
        case UploadAssetsCommand => Ok(s.(globPattern := args[2]))
        case UpdateReleaseCommand => Ok(s)
  }
}
