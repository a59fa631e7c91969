/** The best-effort asset upload loop shared by create-release,
    update-release and upload-assets: each listed file is opened and
    uploaded in turn; a file that does not open is skipped and an upload that
    fails is reported, and neither stops the loop. */
module Uploads {
  import opened Errors
  import opened Remote

  /** What happened to one listed asset. */
  datatype AssetOutcome =
    | Skipped(path: string)
    | Uploaded(path: string, assetName: string)
    | UploadFailed(path: string, assetName: string, message: string)

  /** The remote calls the loop made and one outcome per listed asset. */
  datatype LoopLog = LoopLog(calls: seq<Call>, outcomes: seq<AssetOutcome>)

  /** The fate of a single asset, decided from its own open and upload
      replies alone. */
  function OutcomeOf(path: string, env: Environment): AssetOutcome {
    if !env.opens(path) then Skipped(path)
    else
      match env.upload(path)
      case None => Uploaded(path, env.basename(path))
      case Some(message) => UploadFailed(path, env.basename(path), message)
  }

  /** The listed paths that open, in list order. */
  function Attempted(assets: seq<string>, opens: string -> bool): seq<string> {
    if assets == [] then []
    else if opens(assets[0]) then [assets[0]] + Attempted(assets[1..], opens)
    else Attempted(assets[1..], opens)
  }

  /** `calls` are exactly one upload of each asset that opens, in list order,
      to release `releaseId` of `repo`, under the asset's base name. */
  ghost predicate UploadsFor(calls: seq<Call>, repo: Repo, releaseId: int, token: string,
                             assets: seq<string>, env: Environment)
  {
    var tried := Attempted(assets, env.opens);
    && |calls| == |tried|
    && forall j :: 0 <= j < |tried| ==>
         calls[j] == UploadAsset(repo, releaseId, tried[j], env.basename(tried[j]), token)
  }

  /** `outcomes` hold, position by position, the fate of each listed asset. */
  ghost predicate ReportFor(outcomes: seq<AssetOutcome>, assets: seq<string>, env: Environment) {
    && |outcomes| == |assets|
    && forall i :: 0 <= i < |assets| ==> outcomes[i] == OutcomeOf(assets[i], env)
  }

  /** The loop over the assets found by the glob, in their order. */
  function UploadLoop(repo: Repo, releaseId: int, token: string, assets: seq<string>,
                      env: Environment): (r: LoopLog)
    ensures UploadsFor(r.calls, repo, releaseId, token, assets, env)
    ensures ReportFor(r.outcomes, assets, env)
  {
    if assets == [] then LoopLog([], [])
    else
      var path := assets[0];
      var rest := UploadLoop(repo, releaseId, token, assets[1..], env);
      var outcomes := [OutcomeOf(path, env)] + rest.outcomes;
      assert forall i :: 1 <= i < |assets| ==> outcomes[i] == OutcomeOf(assets[1..][i - 1], env);
      if !env.opens(path) then
        LoopLog(rest.calls, outcomes)
      else
        var tried := Attempted(assets, env.opens);
        assert tried == [path] + Attempted(assets[1..], env.opens);
        LoopLog([UploadAsset(repo, releaseId, path, env.basename(path), token)] + rest.calls, outcomes)
  }

  /** Attempting a concatenated list attempts the first part, then the
      second. */
  lemma {:induction false} AttemptedAppend(a: seq<string>, b: seq<string>, opens: string -> bool)
    ensures Attempted(a + b, opens) == Attempted(a, opens) + Attempted(b, opens)
  {
    if a == [] {
      assert a + b == b;
    } else {
      assert (a + b)[1..] == a[1..] + b;
      AttemptedAppend(a[1..], b, opens);
    }
  }

  /** A path is attempted exactly when it is listed and opens. */
  lemma {:induction false} AttemptedMembers(assets: seq<string>, opens: string -> bool, path: string)
    ensures path in Attempted(assets, opens) <==> path in assets && opens(path)
  {
    if assets != [] {
      AttemptedMembers(assets[1..], opens, path);
      assert assets == [assets[0]] + assets[1..];
    }
  }

  /** Each listed occurrence of a path that opens is attempted exactly once;
      a path that does not open is never attempted. */
  lemma {:induction false} AttemptedCount(assets: seq<string>, opens: string -> bool, path: string)
    ensures multiset(Attempted(assets, opens))[path] == if opens(path) then multiset(assets)[path] else 0
  {
    if assets != [] {
      AttemptedCount(assets[1..], opens, path);
      assert assets == [assets[0]] + assets[1..];
      assert multiset(assets) == multiset{assets[0]} + multiset(assets[1..]);
    }
  }

  /** A file that fails to open is skipped alone: the assets before and after
      it are attempted as if it had not been listed. */
  lemma SkipOnlyThatAsset(before: seq<string>, path: string, after: seq<string>, opens: string -> bool)
    requires !opens(path)
    ensures Attempted(before + [path] + after, opens) == Attempted(before, opens) + Attempted(after, opens)
  {
    AttemptedAppend(before + [path], after, opens);
    AttemptedAppend(before, [path], opens);
  }

  /** The calls the loop makes do not depend on the upload replies: a failed
      upload changes only the reported outcome of its own asset. */
  lemma UploadRepliesOnlyChangeReport(repo: Repo, releaseId: int, token: string,
                                      assets: seq<string>, env: Environment,
                                      upload: string -> Option<string>)
    ensures UploadLoop(repo, releaseId, token, assets, env.(upload := upload)).calls
            == UploadLoop(repo, releaseId, token, assets, env).calls
    ensures forall i :: 0 <= i < |assets| && env.upload(assets[i]) == upload(assets[i]) ==>
              UploadLoop(repo, releaseId, token, assets, env.(upload := upload)).outcomes[i]
              == UploadLoop(repo, releaseId, token, assets, env).outcomes[i]
  {
  }
}
