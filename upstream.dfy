/** The backend factory and the two operations the publish step asks of a backend:
    computing the batch of new commits and rendering the issue table. */
module Upstream {
  import opened Wrappers
  import opened Text
  import opened Tracking
  import GitUpstream
  import GitHubUpstream

  /** A backend object: it keeps the tracking row it was created for; the git backend also
      keeps the name of its mirror directory. */
  datatype Backend =
    | Git(track: Track, repoDirName: string)
    | GitHub(track: Track)

  /** `Factory.create`: exact, case-sensitive dispatch on `version_control`. */
  function Create(track: Track): (b: Option<Backend>)
    ensures b.Some? <==> track.versionControl == "github" || track.versionControl == "git"
    ensures track.versionControl == "github" ==> b == Some(GitHub(track))
    ensures track.versionControl == "git" ==>
      b == Some(Git(track, GitUpstream.UrlToDir(track.scmRepo)))
    ensures b.Some? ==> b.value.track == track
  {
    if track.versionControl == "github" then Some(GitHub(track))
    else if track.versionControl == "git" then Some(Git(track, GitUpstream.UrlToDir(track.scmRepo)))
    else None
  }

  /** The git backends of `a/art.git` and `a/ar` are given the same mirror directory,
      because the directory is named by `url_to_dir` as written. */
  lemma GitBackendsShareMirror(t1: Track, t2: Track)
    requires t1.versionControl == "git" && t2.versionControl == "git"
    requires t1.scmRepo == "a/art.git" && t2.scmRepo == "a/ar"
    ensures Create(t1).Some? && Create(t2).Some?
    ensures Create(t1).value.repoDirName == Create(t2).value.repoDirName
  {
    GitUpstream.UrlToDirCollides();
  }

  /** Names that differ from `git` or `github` in case or by repetition create no backend. */
  lemma CreateIsExact(track: Track)
    requires track.versionControl in {"gitgitgit", "GitHub", "Git", "GITHUB", "git ", ""}
    ensures Create(track) == None
  {
  }

  /** Everything the two backends consult: the git toolchain, the GitHub API and the step
      bound of the GitHub walk. */
  datatype UpstreamEnv = UpstreamEnv(git: GitUpstream.GitEnv, github: GitHubUpstream.GitHubApi, fuel: nat)

  /** What `git_api.get_scm_patch()` returns and the `update_tracking` writes it makes. */
  function ScmPatch(b: Backend, env: UpstreamEnv): (Run<Option<seq<Patch>>>, seq<Track>) {
    match b
    case Git(track, _) => GitUpstream.ScmPatch(track, env.git)
    case GitHub(track) =>
      var (r, _, writes) := GitHubUpstream.PatchList(track, env.github, env.fuel);
      (r, writes)
  }

  /** Only a backend meeting an empty watermark writes to the tracking table, and then
      exactly one row: its own, with the tip as the new watermark. */
  lemma ScmPatchWrites(b: Backend, env: UpstreamEnv)
    ensures var (r, writes) := ScmPatch(b, env);
      writes == [] ||
      (b.track.scmCommit == "" && r == Returns(None) &&
       writes == [WithWatermark(b.track, if b.Git? then env.git.tip.value else env.github.latest.value)])
  {
  }

  method GetScmPatch(b: Backend, env: UpstreamEnv) returns (r: Run<Option<seq<Patch>>>, writes: seq<Track>)
    ensures (r, writes) == ScmPatch(b, env)
  {
    match b
    case Git(track, _) =>
      r, writes := GitUpstream.GetScmPatch(track, env.git);
    case GitHub(track) =>
      var requests;
      r, requests, writes := GitHubUpstream.GetScmPatch(track, env.github, env.fuel);
  }

  /** The issue table the backend renders for a list of records. */
  function IssueTableText(b: Backend, commits: seq<Patch>): string {
    match b
    case Git(_, _) => TableText(GitUpstream.GitRows(NormalizedAll(commits)))
    case GitHub(track) => TableText(GitHubUpstream.GitHubRows(track.scmRepo, NormalizedAll(commits)))
  }

  /** `git_api.issue_table(commit_list)`, returning the table and the records with their
      messages overwritten. */
  method IssueTable(b: Backend, commits: seq<Patch>) returns (table: string, updated: seq<Patch>)
    ensures updated == NormalizedAll(commits)
    ensures table == IssueTableText(b, commits)
  {
    match b
    case Git(_, _) =>
      table, updated := GitUpstream.IssueTable(commits);
    case GitHub(track) =>
      table, updated := GitHubUpstream.IssueTable(track.scmRepo, commits);
  }
}
