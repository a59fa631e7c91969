/** The GitHub releases API as grease sees it: the repository and release
    values it builds, the four remote calls it makes, and an environment that
    fixes the outcome of every call, file open and glob the commands perform. */
module Remote {
  import opened Errors

  /** A GitHub repository, `owner/name`. */
  datatype Repo = Repo(owner: string, name: string)

  /** The release value the commands build and pass to the client. The
      target commitish is absent in the value update-release builds. */
  datatype Release = Release(
    tagName: string,
    targetCommitish: Option<string>,
    name: string,
    body: string,
    draft: bool,
    preRelease: bool)

  /** One remote call, recorded with the arguments the commands pass to the
      client; every call is authenticated with `token`. An update records the
      release value update-release builds, of which the client sends only the
      name, body, draft and pre-release fields. An upload names the local
      path it streams and the asset name it uploads it under. */
  datatype Call =
    | LookupByTag(repo: Repo, tag: string, token: string)
    | CreateRelease(repo: Repo, release: Release, token: string)
    | UpdateRelease(repo: Repo, releaseId: int, release: Release, token: string)
    | UploadAsset(repo: Repo, releaseId: int, path: string, assetName: string, token: string)

  /** The reply to a call into code outside grease: a value, or the message
      of the error it returned. */
  datatype Reply<+T> = Answer(value: T) | Failure(message: string)

  /** The outside world during one invocation. Each command makes at most one
      create, lookup and update call, so those are single replies; a glob is
      answered per pattern; opening and uploading a file are answered per
      path (the glob never lists a path twice); `basename` stands for
      `path.Base`. */
  datatype Environment = Environment(
    glob: string -> Reply<seq<string>>,
    create: Reply<int>,
    lookup: Reply<int>,
    update: Reply<int>,
    opens: string -> bool,
    upload: string -> Option<string>,
    basename: string -> string)
}
