/** Parsing of the REPO argument (`owner/name`) and the two small argument
    validators. */
module Repository {
  import opened Errors

  const NoSlashReason := "expected to be of the form owner/repo but found no /"
  const BlankOwnerReason := "expected to be of the form owner/repo but owner portion was blank"
  const BlankRepoReason := "expected to be of the form owner/repo but repo portion was blank"

  /** Position of the first occurrence of `c` in `s`, or -1 when there is
      none (Go's `strings.Index` with a one-character needle). */
  function IndexOf(s: string, c: char): (r: int)
    ensures -1 <= r < |s|
    ensures r == -1 <==> c !in s
    ensures r >= 0 ==> s[r] == c && c !in s[..r]
  {
    if |s| == 0 then -1
    else if s[0] == c then 0
    else
      var k := IndexOf(s[1..], c);
      if k == -1 then -1
      else
        assert s[..k + 1] == [s[0]] + s[1..][..k];
        k + 1
  }

  /** The first occurrence of `c` in `p + [c] + q` is right after `p` when
      `p` does not contain `c`. */
  lemma {:induction false} IndexOfAfterPrefix(p: string, c: char, q: string)
    requires c !in p
    ensures IndexOf(p + [c] + q, c) == |p|
  {
    var s := p + [c] + q;
    assert s[|p|] == c;
    assert s[..|p|] == p;
  }

  /** splitRepositoryName as written: split at the first `/`, failing when
      there is none or when the owner part is empty. Its third guard, meant
      to reject an empty repository part, compares the start of the
      repository part with the length of the input and never fires. */
  function SplitRepositoryName(name: string): (r: Result<(string, string)>)
    ensures r.Err? <==> '/' !in name || name[0] == '/'
    ensures r.Err? ==> r.error.BadArgument? && r.error.argument == "REPO"
    ensures r.Ok? ==> r.value.0 + "/" + r.value.1 == name
    ensures r.Ok? ==> r.value.0 != "" && '/' !in r.value.0
  {
    var endOwnerIndex := IndexOf(name, '/');
    if endOwnerIndex == -1 then
      Err(BadArgument("REPO", NoSlashReason))
    else if endOwnerIndex == 0 then
      Err(BadArgument("REPO", BlankOwnerReason))
    else
      var repoStartIndex := endOwnerIndex + 1;
      var repoEndIndex := |name|;
      if repoStartIndex > repoEndIndex then
        Err(BadArgument("REPO", BlankRepoReason))
      else
        assert name == name[..endOwnerIndex] + "/" + name[repoStartIndex..repoEndIndex];
        Ok((name[..endOwnerIndex], name[repoStartIndex..repoEndIndex]))
  }

  /** Splitting undoes joining: an owner without `/` joined to any
      repository part (which may itself contain `/`) splits back into the
      same two parts. */
  lemma {:induction false} SplitJoin(owner: string, repo: string)
    requires owner != "" && '/' !in owner
    ensures SplitRepositoryName(owner + "/" + repo) == Ok((owner, repo))
  {
    var name := owner + "/" + repo;
    assert name == owner + ['/'] + repo;
    IndexOfAfterPrefix(owner, '/', repo);
    assert name[..|owner|] == owner;
    assert name[|owner| + 1..] == repo;
  }

  /** The blank-repository guard cannot fire: the index after the first `/`
      never exceeds the length of the input. */
  lemma BlankRepoGuardUnreachable(name: string)
    ensures IndexOf(name, '/') + 1 <= |name|
    ensures SplitRepositoryName(name) != Err(BadArgument("REPO", BlankRepoReason))
  {
  }

  /** Consequently an input with a trailing `/` is accepted with an empty
      repository part. */
  lemma TrailingSlashAccepted(owner: string)
    requires owner != "" && '/' !in owner
    ensures SplitRepositoryName(owner + "/") == Ok((owner, ""))
  {
  }

  /** The input of the repository's own unit test. */
  lemma SplitExampleTimberio()
    ensures SplitRepositoryName("timberio/grease") == Ok(("timberio", "grease"))
  {
    SplitJoin("timberio", "grease");
    assert "timberio" + "/" + "grease" == "timberio/grease";
  }

  /** The trailing-slash input `acme/` is accepted with an empty repository. */
  lemma SplitExampleTrailingSlash()
    ensures SplitRepositoryName("acme/") == Ok(("acme", ""))
  {
    TrailingSlashAccepted("acme");
    assert "acme" + "/" == "acme/";
  }

  /** splitRepositoryName as its error message says it was meant to behave:
      the blank-repository guard compares with `>=`, so a repository part
      must be non-empty. */
  function SplitRepositoryNameCorrected(name: string): (r: Result<(string, string)>)
    ensures r.Err? <==> '/' !in name || name[0] == '/' || IndexOf(name, '/') == |name| - 1
    ensures r.Err? ==> r.error.BadArgument? && r.error.argument == "REPO"
    ensures r.Ok? ==> r.value.0 + "/" + r.value.1 == name
    ensures r.Ok? ==> r.value.0 != "" && r.value.1 != "" && '/' !in r.value.0
  {
    var endOwnerIndex := IndexOf(name, '/');
    if endOwnerIndex == -1 then
      Err(BadArgument("REPO", NoSlashReason))
    else if endOwnerIndex == 0 then
      Err(BadArgument("REPO", BlankOwnerReason))
    else
      var repoStartIndex := endOwnerIndex + 1;
      var repoEndIndex := |name|;
      if repoStartIndex >= repoEndIndex then
        Err(BadArgument("REPO", BlankRepoReason))
      else
        assert name == name[..endOwnerIndex] + "/" + name[repoStartIndex..repoEndIndex];
        Ok((name[..endOwnerIndex], name[repoStartIndex..repoEndIndex]))
  }

  /** The corrected parser rejects exactly the inputs the parser as written
      accepts with an empty repository part, and agrees with it elsewhere. */
  lemma CorrectionOnlyRejectsBlankRepo(name: string)
    ensures SplitRepositoryName(name).Ok? && SplitRepositoryName(name).value.1 == ""
            ==> SplitRepositoryNameCorrected(name) == Err(BadArgument("REPO", BlankRepoReason))
    ensures !(SplitRepositoryName(name).Ok? && SplitRepositoryName(name).value.1 == "")
            ==> SplitRepositoryNameCorrected(name) == SplitRepositoryName(name)
  {
  }

  /** validatePositionalArgumentCount: the command received exactly the
      expected number of positional arguments. */
  function ValidatePositionalArgumentCount(received: nat, expected: int): (r: Outcome)
    ensures r.Fail? <==> received != expected
    ensures r.Fail? ==> r.error == IncorrectArgumentNumber(expected, received)
  {
    if received != expected then Fail(IncorrectArgumentNumber(expected, received)) else Pass
  }

  /** validateGitHubToken: a token was supplied. */
  function ValidateGitHubToken(token: string): (r: Outcome)
    ensures r.Fail? <==> token == ""
    ensures r.Fail? ==> r.error == MissingRequiredArgument("--github-token") && ExitCode(r.error) == Some(64)
  {
    if token == "" then Fail(MissingRequiredArgument("--github-token")) else Pass
  }
}
