/** One tracking job: compute the batch of new upstream commits, then publish it on
    Gitee in a fixed order (temporary branch, one patch file per commit, the spec file,
    an issue carrying the commit table, a pull request retried at most ten times) and
    finally move the watermark and record the issue.

    Every Gitee call is recorded in a trace of `GiteeCall`s; what each call answers is an
    oracle (`Gitee`). `modify_spec`, whose `Spec` class is not part of this model, is a
    parameter of type `SpecEditor`. */
module Publish {
  import opened Wrappers
  import opened Text
  import opened Tracking
  import Upstream
  import GitHubUpstream

  /** An existing spec file as `get_path_content` returns it: decoded content and blob sha. */
  datatype SpecFile = SpecFile(content: string, sha: string)

  datatype Gitee = Gitee(
    branchCreated: bool,          // create_branch(...) == 'success'
    patchUploaded: nat -> bool,   // the k-th upload_patch(...) == 'success', k from 0
    specFile: Option<SpecFile>,   // get_path_content(...): Some when the reply has 'content'
    specUploaded: bool,           // upload_spec(...) / create_spec(...) == 'success'
    issue: Option<string>,        // create_gitee_issue(...): the issue number when 'success'
    prCreated: nat -> bool)       // the k-th create_pull_request(...) == 'success', k from 0

  /** The Gitee calls, with the arguments the code passes. */
  datatype GiteeCall =
    | CreateBranch(repo: string, base: string, newBranch: string)
    | UploadPatch(repo: string, branch: string, commitId: string, content: string, curTime: string, commitUrl: string)
    | GetPathContent(repo: string, branch: string, path: string)
    | UploadSpec(repo: string, branch: string, curTime: string, content: string, sha: string)
    | CreateSpec(repo: string, branch: string, content: string, curTime: string)
    | CreateGiteeIssue(repo: string, branch: string, body: string, curTime: string)
    | CreatePullRequest(repo: string, branch: string, newBranch: string, issue: string, curTime: string)

  /** `modify_spec(log_title, log_content, patch_file_lst, spec_content)`. */
  type SpecEditor = (string, string, seq<string>, string) -> string

  /** The `scm_dict` of `get_scm_patch`: the tracking row's fields and the new commits. */
  datatype PatchBatch = PatchBatch(track: Track, commits: seq<Patch>)

  /** How many times a pull request is attempted at most. */
  const PrRetries: nat := 10

  // ---------------------------------------------------------------------------
  // Names derived from the batch.

  /** The `owner/name` path of the Gitee repository. */
  function GiteeRepo(repo: string): string {
    Replace(repo, "https://gitee.com/", "")
  }

  /** The temporary branch the patches are committed to. */
  function NewBranch(curTime: string): (b: string)
    ensures StartsWith(b, "patch-tracking/") && b[|"patch-tracking/"|..] == curTime
  {
    "patch-tracking/" + curTime
  }

  function Ids(ps: seq<Patch>): (ids: seq<string>)
    ensures |ids| == |ps| && forall k :: 0 <= k < |ps| ==> ids[k] == ps[k].commitId
  {
    if ps == [] then [] else [ps[0].commitId] + Ids(ps[1..])
  }

  /** `[patch + '.patch' for patch in patch_lst]`. */
  function PatchFileNames(ids: seq<string>): (files: seq<string>)
    ensures |files| == |ids| && forall k :: 0 <= k < |ids| ==> files[k] == ids[k] + ".patch"
  {
    if ids == [] then [] else [ids[0] + ".patch"] + PatchFileNames(ids[1..])
  }

  function ChangelogTitle(today: string): string {
    today + " patch-tracking"
  }

  function ChangelogNote(first: string, last: string): string {
    "append patch file of upstream repository from <" + first + "> to <" + last + ">"
  }

  // ---------------------------------------------------------------------------
  // upload_spec_to_repo

  /** `upload_spec_to_repo`: whether the spec file was written, and the calls it made.
      The repository path must split into exactly two `/`-parts (else ValueError) and
      there must be at least one uploaded id (else IndexError); the spec file
      `<name>.spec` is then read from the base branch and either updated with its sha
      or created from the empty text, on the temporary branch. */
  function UploadSpecToRepo(batch: PatchBatch, ids: seq<string>, curTime: string, today: string,
                            g: Gitee, modifySpec: SpecEditor): (res: (Run<bool>, seq<GiteeCall>))
    ensures res.0.Returns? ==> ids != []
    ensures res.0.Returns? || res.0.Raises?
  {
    var repo := GiteeRepo(batch.track.repo);
    var parts := Split(repo, '/');
    if |parts| != 2 then (Raises(ValueError), [])
    else if ids == [] then (Raises(IndexError), [])
    else
      var specFile := parts[1] + ".spec";
      var files := PatchFileNames(ids);
      var title := ChangelogTitle(today);
      var note := ChangelogNote(ids[0], ids[|ids| - 1]);
      var read := GetPathContent(repo, batch.track.branch, specFile);
      match g.specFile
      case Some(f) =>
        (Returns(g.specUploaded), [read, UploadSpec(repo, NewBranch(curTime), curTime, modifySpec(title, note, files, f.content), f.sha)])
      case None =>
        (Returns(g.specUploaded), [read, CreateSpec(repo, NewBranch(curTime), modifySpec(title, note, files, ""), curTime)])
  }

  lemma UploadSpecToRepoShape(batch: PatchBatch, ids: seq<string>, curTime: string, today: string,
                              g: Gitee, modifySpec: SpecEditor)
    ensures var res := UploadSpecToRepo(batch, ids, curTime, today, g, modifySpec);
      (res.0 == Raises(ValueError) <==> Count(GiteeRepo(batch.track.repo), '/') != 1) &&
      (res.0 == Raises(IndexError) <==> Count(GiteeRepo(batch.track.repo), '/') == 1 && ids == []) &&
      (res.0.Raises? ==> res.1 == []) &&
      (res.0.Returns? ==> res.0.value == g.specUploaded && ids != [] && |res.1| == 2)
    ensures var res := UploadSpecToRepo(batch, ids, curTime, today, g, modifySpec);
      res.0.Returns? ==>
      var repo := GiteeRepo(batch.track.repo);
      var name := Split(repo, '/')[1];
      var base := if g.specFile.Some? then g.specFile.value.content else "";
      var newSpec := modifySpec(ChangelogTitle(today), ChangelogNote(ids[0], ids[|ids| - 1]), PatchFileNames(ids), base);
      res.1[0] == GetPathContent(repo, batch.track.branch, name + ".spec") &&
      (g.specFile.Some? ==> res.1[1] == UploadSpec(repo, NewBranch(curTime), curTime, newSpec, g.specFile.value.sha)) &&
      (g.specFile.None? ==> res.1[1] == CreateSpec(repo, NewBranch(curTime), newSpec, curTime))
  {
  }

  // ---------------------------------------------------------------------------
  // create_patch_issue_pr: the reference definition.

  /** The upload call for the k-th record. */
  function UploadCall(batch: PatchBatch, curTime: string, k: nat): GiteeCall
    requires k < |batch.commits|
  {
    var c := batch.commits[k];
    UploadPatch(GiteeRepo(batch.track.repo), NewBranch(curTime), c.commitId, c.patchContent, curTime,
                GitHubUpstream.CommitUrl(batch.track.scmRepo, c.commitId))
  }

  /** The upload calls of the first `n` records, in order. */
  function UploadCalls(batch: PatchBatch, curTime: string, n: nat): (calls: seq<GiteeCall>)
    requires n <= |batch.commits|
    ensures |calls| == n
  {
    if n == 0 then [] else UploadCalls(batch, curTime, n - 1) + [UploadCall(batch, curTime, n - 1)]
  }

  /** The k-th upload call is the one for the k-th record. */
  lemma {:induction false} UploadCallsAt(batch: PatchBatch, curTime: string, n: nat, k: nat)
    requires k < n <= |batch.commits|
    ensures UploadCalls(batch, curTime, n)[k] == UploadCall(batch, curTime, k)
  {
    if k < n - 1 {
      UploadCallsAt(batch, curTime, n - 1, k);
    }
  }

  /** The index of the first of `n` uploads that fails, or `n` when none does. */
  function FirstFailedUpload(g: Gitee, n: nat): (k: nat)
    ensures k <= n
    ensures forall j :: 0 <= j < k ==> g.patchUploaded(j)
    ensures k < n ==> !g.patchUploaded(k)
  {
    if n == 0 then 0
    else
      var k := FirstFailedUpload(g, n - 1);
      if k < n - 1 then k else if g.patchUploaded(n - 1) then n else n - 1
  }

  /** The index of the first successful pull-request attempt, or PrRetries when all fail. */
  function FirstPrSuccess(g: Gitee): (k: nat)
    ensures k <= PrRetries
    ensures forall j :: 0 <= j < k ==> !g.prCreated(j)
    ensures k < PrRetries ==> g.prCreated(k)
  {
    FirstPrSuccessFrom(g, 0)
  }

  function FirstPrSuccessFrom(g: Gitee, i: nat): (k: nat)
    requires i <= PrRetries
    ensures i <= k <= PrRetries
    ensures forall j :: i <= j < k ==> !g.prCreated(j)
    ensures k < PrRetries ==> g.prCreated(k)
    decreases PrRetries - i
  {
    if i == PrRetries then PrRetries
    else if g.prCreated(i) then i
    else FirstPrSuccessFrom(g, i + 1)
  }

  /** `n` identical pull-request attempts. */
  function PrCalls(call: GiteeCall, n: nat): (calls: seq<GiteeCall>)
    ensures |calls| == n
  {
    if n == 0 then [] else PrCalls(call, n - 1) + [call]
  }

  lemma {:induction false} PrCallsAt(call: GiteeCall, n: nat, k: nat)
    requires k < n
    ensures PrCalls(call, n)[k] == call
  {
    if k < n - 1 {
      PrCallsAt(call, n - 1, k);
    }
  }

  /** How `create_patch_issue_pr` ends (the issue dict, or None), the Gitee calls it makes and
      the `update_tracking` writes; the issue body is the table the backend renders. */
  function PublishBatch(batch: PatchBatch, backend: Upstream.Backend, curTime: string, today: string,
                        g: Gitee, modifySpec: SpecEditor): (Run<Option<IssueRow>>, seq<GiteeCall>, seq<Track>)
  {
    PublishSteps(batch, curTime, g,
                 UploadSpecToRepo(batch, Ids(batch.commits), curTime, today, g, modifySpec),
                 Upstream.IssueTableText(backend, batch.commits))
  }

  /** The order of the steps, for any outcome `spec` of the spec-file step and any issue
      body: the step order does not depend on either. */
  function PublishSteps(batch: PatchBatch, curTime: string, g: Gitee, spec: (Run<bool>, seq<GiteeCall>),
                        body: string): (Run<Option<IssueRow>>, seq<GiteeCall>, seq<Track>)
    requires spec.0.Returns? ==> |batch.commits| > 0
  {
    var (ok, c2) := Prepared(batch, curTime, g, spec);
    if ok.Raises? then (Raises(ok.error), c2, [])
    else if ok != Returns(true) then (Returns(None), c2, [])
    else IssueAndPr(batch, body, curTime, g, c2)
  }

  /** The steps before the issue: the temporary branch, the uploads in `commit_list` order up
      to the first failure, and the spec-file step; Returns(true) when all of them succeeded. */
  function Prepared(batch: PatchBatch, curTime: string, g: Gitee, spec: (Run<bool>, seq<GiteeCall>))
    : (res: (Run<bool>, seq<GiteeCall>))
    ensures res.0 != Returns(false) ==>
      g.branchCreated && FirstFailedUpload(g, |batch.commits|) == |batch.commits| && res.0 == spec.0
  {
    var n := |batch.commits|;
    var branchCall := [CreateBranch(GiteeRepo(batch.track.repo), batch.track.branch, NewBranch(curTime))];
    if !g.branchCreated then (Returns(false), branchCall)
    else
      var k := FirstFailedUpload(g, n);
      if k < n then (Returns(false), branchCall + UploadCalls(batch, curTime, k + 1))
      else (spec.0, branchCall + UploadCalls(batch, curTime, n) + spec.1)
  }

  /** The last stage, after the spec file is written: the issue, the pull request and the
      watermark; `prefix` holds the calls made before. */
  function IssueAndPr(batch: PatchBatch, body: string, curTime: string, g: Gitee,
                      prefix: seq<GiteeCall>): (Run<Option<IssueRow>>, seq<GiteeCall>, seq<Track>)
    requires |batch.commits| > 0
  {
    var repo := GiteeRepo(batch.track.repo);
    var c3 := prefix + [CreateGiteeIssue(repo, batch.track.branch, body, curTime)];
    if g.issue.None? then (Returns(None), c3, [])
    else
      var p := FirstPrSuccess(g);
      var pr := CreatePullRequest(repo, batch.track.branch, NewBranch(curTime), g.issue.value, curTime);
      if p == PrRetries then (Returns(None), c3 + PrCalls(pr, PrRetries), [])
      else
        (Returns(Some(IssueRow(g.issue.value, batch.track.repo, batch.track.branch))),
         c3 + PrCalls(pr, p + 1),
         [WithWatermark(batch.track, batch.commits[|batch.commits| - 1].commitId)])
  }

  // ---------------------------------------------------------------------------
  // create_patch_issue_pr: the step-by-step method.

  /** The upload loop: each record's message is overwritten with its normalised form and
      its patch file uploaded; the first failed upload stops the loop. */
  method UploadPatches(batch: PatchBatch, curTime: string, g: Gitee)
    returns (ok: bool, calls: seq<GiteeCall>, commits: seq<Patch>, patchLst: seq<string>)
    ensures var k := FirstFailedUpload(g, |batch.commits|);
      ok == (k == |batch.commits|) &&
      calls == UploadCalls(batch, curTime, if ok then k else k + 1)
    ensures ok ==> commits == NormalizedAll(batch.commits) && patchLst == Ids(batch.commits)
  {
    var giteeRepo := GiteeRepo(batch.track.repo);
    var newBranch := NewBranch(curTime);
    calls, commits, patchLst := [], batch.commits, [];
    for k := 0 to |commits|
      invariant k <= FirstFailedUpload(g, |batch.commits|)
      invariant calls == UploadCalls(batch, curTime, k)
      invariant patchLst == Ids(batch.commits[..k])
      invariant commits == NormalizedAll(batch.commits[..k]) + batch.commits[k..]
    {
      UploadStep(batch.commits, k);
      var latestCommit := commits[k];
      assert latestCommit == batch.commits[k];
      var scmCommitUrl := GitHubUpstream.CommitUrl(batch.track.scmRepo, latestCommit.commitId);
      commits := commits[k := WithNormalizedMessage(latestCommit)];
      calls := calls + [UploadPatch(giteeRepo, newBranch, latestCommit.commitId, latestCommit.patchContent, curTime, scmCommitUrl)];
      assert calls == UploadCalls(batch, curTime, k + 1);
      if !g.patchUploaded(k) {
        assert FirstFailedUpload(g, |batch.commits|) == k;
        return false, calls, commits, patchLst;
      }
      patchLst := patchLst + [latestCommit.commitId];
    }
    assert batch.commits[..|batch.commits|] == batch.commits;
    assert batch.commits[|batch.commits|..] == [];
    ok := true;
  }

  /** The retry loop: at most PrRetries attempts, stopping at the first success. */
  method RetryPullRequest(g: Gitee, pr: GiteeCall) returns (ok: bool, calls: seq<GiteeCall>)
    ensures var p := FirstPrSuccess(g);
      ok == (p < PrRetries) && calls == PrCalls(pr, if ok then p + 1 else PrRetries)
  {
    calls := [];
    var retryCount := PrRetries;
    while retryCount > 0
      invariant retryCount <= PrRetries
      invariant PrRetries - retryCount <= FirstPrSuccess(g)
      invariant calls == PrCalls(pr, PrRetries - retryCount)
    {
      calls := calls + [pr];
      if g.prCreated(PrRetries - retryCount) {
        break;
      }
      retryCount := retryCount - 1;
    }
    ok := retryCount != 0;
  }

  method CreatePatchIssuePr(batch: PatchBatch, backend: Upstream.Backend, curTime: string, today: string,
                            g: Gitee, modifySpec: SpecEditor)
    returns (r: Run<Option<IssueRow>>, calls: seq<GiteeCall>, writes: seq<Track>)
    ensures (r, calls, writes) == PublishBatch(batch, backend, curTime, today, g, modifySpec)
  {
    var result, commits;
    result, calls, commits := PrepareBranch(batch, curTime, today, g, modifySpec);
    if result.Raises? {
      return Raises(result.error), calls, [];
    }
    if result != Returns(true) {
      return Returns(None), calls, [];
    }
    r, calls, writes := CreateIssueAndPr(batch, backend, curTime, g, commits, calls);
  }

  /** The branch, upload and spec-file part of `create_patch_issue_pr`. */
  method PrepareBranch(batch: PatchBatch, curTime: string, today: string, g: Gitee, modifySpec: SpecEditor)
    returns (result: Run<bool>, calls: seq<GiteeCall>, commits: seq<Patch>)
    ensures (result, calls) == Prepared(batch, curTime, g, UploadSpecToRepo(batch, Ids(batch.commits), curTime, today, g, modifySpec))
    ensures result == Returns(true) ==> |batch.commits| > 0 && commits == NormalizedAll(batch.commits)
  {
    var giteeRepo := GiteeRepo(batch.track.repo);
    var newBranch := NewBranch(curTime);
    calls := [CreateBranch(giteeRepo, batch.track.branch, newBranch)];
    commits := batch.commits;
    if !g.branchCreated {
      return Returns(false), calls, commits;
    }
    var uploaded, uploadCalls, patchLst;
    uploaded, uploadCalls, commits, patchLst := UploadPatches(batch, curTime, g);
    calls := calls + uploadCalls;
    if !uploaded {
      return Returns(false), calls, commits;
    }
    var (specResult, specCalls) := UploadSpecToRepo(batch, patchLst, curTime, today, g, modifySpec);
    result := specResult;
    calls := calls + specCalls;
  }

  /** The issue and pull-request part of `create_patch_issue_pr`, given the records whose
      messages the upload loop overwrote. */
  method CreateIssueAndPr(batch: PatchBatch, backend: Upstream.Backend, curTime: string, g: Gitee,
                          commits: seq<Patch>, prefix: seq<GiteeCall>)
    returns (r: Run<Option<IssueRow>>, calls: seq<GiteeCall>, writes: seq<Track>)
    requires |batch.commits| > 0 && commits == NormalizedAll(batch.commits)
    ensures (r, calls, writes) == IssueAndPr(batch, Upstream.IssueTableText(backend, batch.commits), curTime, g, prefix)
  {
    writes := [];
    var giteeRepo := GiteeRepo(batch.track.repo);
    var newBranch := NewBranch(curTime);
    NormalizedAllIdempotent(batch.commits);
    var issueTable, _ := Upstream.IssueTable(backend, commits);
    calls := prefix + [CreateGiteeIssue(giteeRepo, batch.track.branch, issueTable, curTime)];
    if g.issue.None? {
      return Returns(None), calls, writes;
    }
    var issueNum := g.issue.value;
    var prOk, prCalls := RetryPullRequest(g, CreatePullRequest(giteeRepo, batch.track.branch, newBranch, issueNum, curTime));
    calls := calls + prCalls;
    if !prOk {
      return Returns(None), calls, writes;
    }
    writes := [WithWatermark(batch.track, commits[|commits| - 1].commitId)];
    r := Returns(Some(IssueRow(issueNum, batch.track.repo, batch.track.branch)));
  }

  /** One turn of the upload loop, on the record list and on the list of uploaded ids. */
  lemma UploadStep(ps: seq<Patch>, k: nat)
    requires k < |ps|
    ensures (NormalizedAll(ps[..k]) + ps[k..])[k] == ps[k]
    ensures (NormalizedAll(ps[..k]) + ps[k..])[k := WithNormalizedMessage(ps[k])] ==
      NormalizedAll(ps[..k + 1]) + ps[k + 1..]
    ensures Ids(ps[..k + 1]) == Ids(ps[..k]) + [ps[k].commitId]
  {
    assert ps[..k + 1] == ps[..k] + [ps[k]];
    NormalizedAllAppend(ps[..k], ps[k]);
    IdsAppend(ps[..k], ps[k]);
  }

  lemma NormalizedAllAppend(ps: seq<Patch>, p: Patch)
    ensures NormalizedAll(ps + [p]) == NormalizedAll(ps) + [WithNormalizedMessage(p)]
  {
  }

  lemma IdsAppend(ps: seq<Patch>, p: Patch)
    ensures Ids(ps + [p]) == Ids(ps) + [p.commitId]
  {
  }

  // ---------------------------------------------------------------------------
  // What the publish order guarantees.

  /** The number of pull-request attempts in a trace. */
  function PrAttempts(calls: seq<GiteeCall>): nat {
    if calls == [] then 0
    else PrAttempts(calls[..|calls| - 1]) + (if calls[|calls| - 1].CreatePullRequest? then 1 else 0)
  }

  lemma {:induction false} PrAttemptsAppend(a: seq<GiteeCall>, b: seq<GiteeCall>)
    ensures PrAttempts(a + b) == PrAttempts(a) + PrAttempts(b)
    decreases |b|
  {
    if b == [] {
      assert a + b == a;
    } else {
      assert (a + b)[..|a + b| - 1] == a + b[..|b| - 1];
      PrAttemptsAppend(a, b[..|b| - 1]);
    }
  }

  lemma {:induction false} PrAttemptsNone(calls: seq<GiteeCall>)
    requires forall i :: 0 <= i < |calls| ==> !calls[i].CreatePullRequest?
    ensures PrAttempts(calls) == 0
  {
    if calls != [] {
      PrAttemptsNone(calls[..|calls| - 1]);
    }
  }

  lemma {:induction false} PrAttemptsOfPrCalls(pr: GiteeCall, n: nat)
    requires pr.CreatePullRequest?
    ensures PrAttempts(PrCalls(pr, n)) == n
  {
    if n > 0 {
      assert PrCalls(pr, n)[..n - 1] == PrCalls(pr, n - 1);
      PrAttemptsOfPrCalls(pr, n - 1);
    }
  }

  lemma UploadCallsHaveNoPr(batch: PatchBatch, curTime: string, n: nat)
    requires n <= |batch.commits|
    ensures PrAttempts(UploadCalls(batch, curTime, n)) == 0
  {
    forall i | 0 <= i < n
      ensures !UploadCalls(batch, curTime, n)[i].CreatePullRequest?
    {
      UploadCallsAt(batch, curTime, n, i);
    }
    PrAttemptsNone(UploadCalls(batch, curTime, n));
  }

  /** The spec-file step makes no pull request. */
  lemma UploadSpecToRepoHasNoPr(batch: PatchBatch, ids: seq<string>, curTime: string, today: string,
                                g: Gitee, modifySpec: SpecEditor)
    ensures PrAttempts(UploadSpecToRepo(batch, ids, curTime, today, g, modifySpec).1) == 0
  {
    var calls := UploadSpecToRepo(batch, ids, curTime, today, g, modifySpec).1;
    UploadSpecToRepoShape(batch, ids, curTime, today, g, modifySpec);
    PrAttemptsNone(calls);
  }

  /** The steps before the issue start with the branch creation, followed by the uploads in
      `commit_list` order: the `j`-th upload call is the one for the `j`-th record. A failed
      upload is the last call made. */
  lemma PreparedUploadsInOrder(batch: PatchBatch, curTime: string, g: Gitee, spec: (Run<bool>, seq<GiteeCall>))
    ensures var (ok, calls) := Prepared(batch, curTime, g, spec);
      var n := |batch.commits|;
      var k := FirstFailedUpload(g, n);
      var uploads := if !g.branchCreated then 0 else if k < n then k + 1 else n;
      |calls| >= 1 + uploads &&
      calls[0] == CreateBranch(GiteeRepo(batch.track.repo), batch.track.branch, NewBranch(curTime)) &&
      (forall j :: 0 <= j < uploads ==> calls[1 + j] == UploadCall(batch, curTime, j)) &&
      (g.branchCreated && k < n ==> |calls| == k + 2 && ok == Returns(false))
  {
    var n := |batch.commits|;
    var k := FirstFailedUpload(g, n);
    var uploads := if !g.branchCreated then 0 else if k < n then k + 1 else n;
    var (ok, calls) := Prepared(batch, curTime, g, spec);
    var head := [CreateBranch(GiteeRepo(batch.track.repo), batch.track.branch, NewBranch(curTime))];
    if g.branchCreated {
      var ups := UploadCalls(batch, curTime, uploads);
      assert calls[..1 + uploads] == head + ups by {
        if k == n {
          assert calls == head + ups + spec.1;
        }
      }
      forall j | 0 <= j < uploads
        ensures calls[1 + j] == UploadCall(batch, curTime, j)
      {
        assert calls[1 + j] == calls[..1 + uploads][1 + j];
        UploadCallsAt(batch, curTime, uploads, j);
      }
    }
  }

  /** The same holds of the whole trace: the later steps only append to it. */
  lemma PublishUploadsInOrder(batch: PatchBatch, curTime: string, g: Gitee, spec: (Run<bool>, seq<GiteeCall>),
                              body: string)
    requires spec.0.Returns? ==> |batch.commits| > 0
    ensures var (r, calls, writes) := PublishSteps(batch, curTime, g, spec, body);
      var n := |batch.commits|;
      var k := FirstFailedUpload(g, n);
      var uploads := if !g.branchCreated then 0 else if k < n then k + 1 else n;
      |calls| >= 1 + uploads &&
      calls[0] == CreateBranch(GiteeRepo(batch.track.repo), batch.track.branch, NewBranch(curTime)) &&
      (forall j :: 0 <= j < uploads ==> calls[1 + j] == UploadCall(batch, curTime, j)) &&
      (g.branchCreated && k < n ==> |calls| == k + 2 && r == Returns(None) && writes == [])
  {
    var (ok, c2) := Prepared(batch, curTime, g, spec);
    PreparedUploadsInOrder(batch, curTime, g, spec);
    if ok == Returns(true) {
      IssueAndPrExtends(batch, body, curTime, g, c2);
      var calls := IssueAndPr(batch, body, curTime, g, c2).1;
      forall j | 0 <= j < |c2| ensures calls[j] == c2[j] {
        assert calls[j] == calls[..|c2|][j];
      }
    }
  }

  /** Every failure before the issue ends the job at once: the trace is that of the steps
      before the issue, nothing is written and no issue is reported. A failed branch creation
      is the only call made; a failed spec-file step is the last step taken. */
  lemma PublishShortCircuits(batch: PatchBatch, curTime: string, g: Gitee, spec: (Run<bool>, seq<GiteeCall>),
                             body: string)
    requires spec.0.Returns? ==> |batch.commits| > 0
    ensures var (r, calls, writes) := PublishSteps(batch, curTime, g, spec, body);
      var (ok, prepared) := Prepared(batch, curTime, g, spec);
      (ok != Returns(true) ==> calls == prepared && writes == [] && (r.Raises? || r == Returns(None))) &&
      (!g.branchCreated ==>
        calls == [CreateBranch(GiteeRepo(batch.track.repo), batch.track.branch, NewBranch(curTime))]) &&
      (g.branchCreated && FirstFailedUpload(g, |batch.commits|) == |batch.commits| ==>
        ok == spec.0 &&
        prepared == [CreateBranch(GiteeRepo(batch.track.repo), batch.track.branch, NewBranch(curTime))] +
          UploadCalls(batch, curTime, |batch.commits|) + spec.1)
  {
  }

  /** The last stage only appends to the calls made before it. */
  lemma IssueAndPrExtends(batch: PatchBatch, body: string, curTime: string, g: Gitee,
                          prefix: seq<GiteeCall>)
    requires |batch.commits| > 0
    ensures var (_, calls, _) := IssueAndPr(batch, body, curTime, g, prefix);
      |calls| > |prefix| && calls[..|prefix|] == prefix
  {
    var (_, calls, _) := IssueAndPr(batch, body, curTime, g, prefix);
    var c3 := prefix + [CreateGiteeIssue(GiteeRepo(batch.track.repo), batch.track.branch, body, curTime)];
    assert calls[..|c3|] == c3;
    assert c3[..|prefix|] == prefix;
  }

  /** The steps before the issue make no pull request when the spec-file step makes none. */
  lemma PreparedHasNoPr(batch: PatchBatch, curTime: string, g: Gitee, spec: (Run<bool>, seq<GiteeCall>))
    requires PrAttempts(spec.1) == 0
    ensures PrAttempts(Prepared(batch, curTime, g, spec).1) == 0
  {
    var n := |batch.commits|;
    var k := FirstFailedUpload(g, n);
    var head := [CreateBranch(GiteeRepo(batch.track.repo), batch.track.branch, NewBranch(curTime))];
    assert PrAttempts(head) == 0 by { assert head[..0] == []; }
    if g.branchCreated {
      var m := if k < n then k + 1 else n;
      UploadCallsHaveNoPr(batch, curTime, m);
      PrAttemptsAppend(head, UploadCalls(batch, curTime, m));
      if k == n {
        PrAttemptsAppend(head + UploadCalls(batch, curTime, m), spec.1);
      }
    }
  }

  /** The last stage makes one pull-request attempt per failure up to the first success, at
      most PrRetries, and none without an issue. */
  lemma IssueAndPrAttempts(batch: PatchBatch, body: string, curTime: string, g: Gitee, prefix: seq<GiteeCall>)
    requires |batch.commits| > 0
    ensures var p := FirstPrSuccess(g);
      PrAttempts(IssueAndPr(batch, body, curTime, g, prefix).1) == PrAttempts(prefix) +
        (if g.issue.None? then 0 else if p == PrRetries then PrRetries else p + 1)
  {
    var repo := GiteeRepo(batch.track.repo);
    var issueCall := CreateGiteeIssue(repo, batch.track.branch, body, curTime);
    var c3 := prefix + [issueCall];
    PrAttemptsAppend(prefix, [issueCall]);
    assert PrAttempts([issueCall]) == 0 by { assert [issueCall][..0] == []; }
    if g.issue.Some? {
      var p := FirstPrSuccess(g);
      var pr := CreatePullRequest(repo, batch.track.branch, NewBranch(curTime), g.issue.value, curTime);
      var m := if p == PrRetries then PrRetries else p + 1;
      PrAttemptsOfPrCalls(pr, m);
      PrAttemptsAppend(c3, PrCalls(pr, m));
    }
  }

  /** At most PrRetries pull requests are attempted, and none unless the branch, the patches,
      the spec file and the issue were all created. */
  lemma PublishPrAttempts(batch: PatchBatch, curTime: string, g: Gitee, spec: (Run<bool>, seq<GiteeCall>),
                          body: string)
    requires spec.0.Returns? ==> |batch.commits| > 0
    requires PrAttempts(spec.1) == 0
    ensures var (r, calls, writes) := PublishSteps(batch, curTime, g, spec, body);
      PrAttempts(calls) <= PrRetries &&
      (PrAttempts(calls) > 0 ==>
        g.branchCreated && FirstFailedUpload(g, |batch.commits|) == |batch.commits| &&
        spec.0 == Returns(true) && g.issue.Some?)
  {
    var (ok, c2) := Prepared(batch, curTime, g, spec);
    PreparedHasNoPr(batch, curTime, g, spec);
    if ok == Returns(true) {
      IssueAndPrAttempts(batch, body, curTime, g, c2);
    }
  }

  /** The same for the spec-file step `create_patch_issue_pr` runs. */
  lemma PublishBatchPrAttempts(batch: PatchBatch, backend: Upstream.Backend, curTime: string, today: string,
                               g: Gitee, modifySpec: SpecEditor)
    ensures var (r, calls, writes) := PublishBatch(batch, backend, curTime, today, g, modifySpec);
      PrAttempts(calls) <= PrRetries &&
      (PrAttempts(calls) > 0 ==>
        g.branchCreated && g.issue.Some? &&
        UploadSpecToRepo(batch, Ids(batch.commits), curTime, today, g, modifySpec).0 == Returns(true))
  {
    UploadSpecToRepoHasNoPr(batch, Ids(batch.commits), curTime, today, g, modifySpec);
    PublishPrAttempts(batch, curTime, g, UploadSpecToRepo(batch, Ids(batch.commits), curTime, today, g, modifySpec),
                      Upstream.IssueTableText(backend, batch.commits));
  }

  /** The last stage moves the watermark, and reports the issue, exactly when the issue was
      created and a pull-request attempt succeeded. */
  lemma IssueAndPrWatermark(batch: PatchBatch, body: string, curTime: string, g: Gitee, prefix: seq<GiteeCall>)
    requires |batch.commits| > 0
    ensures var (r, calls, writes) := IssueAndPr(batch, body, curTime, g, prefix);
      (writes != [] <==> r.Returns? && r.value.Some?) &&
      (writes != [] <==> g.issue.Some? && exists j :: 0 <= j < PrRetries && g.prCreated(j)) &&
      (writes != [] ==>
        writes == [WithWatermark(batch.track, batch.commits[|batch.commits| - 1].commitId)] &&
        r == Returns(Some(IssueRow(g.issue.value, batch.track.repo, batch.track.branch))))
  {
    var p := FirstPrSuccess(g);
    if p < PrRetries {
      assert g.prCreated(p);
    }
  }

  /** The watermark moves, and an issue is reported, only after every step succeeded and
      within PrRetries pull-request attempts; the new watermark is the id of the last
      (newest) record, with every other field of the tracking row kept. */
  lemma PublishWatermark(batch: PatchBatch, curTime: string, g: Gitee, spec: (Run<bool>, seq<GiteeCall>),
                         body: string)
    requires spec.0.Returns? ==> |batch.commits| > 0
    ensures var (r, calls, writes) := PublishSteps(batch, curTime, g, spec, body);
      (writes != [] <==> r.Returns? && r.value.Some?) &&
      (writes != [] ==>
        g.branchCreated &&
        FirstFailedUpload(g, |batch.commits|) == |batch.commits| && |batch.commits| > 0 &&
        spec.0 == Returns(true) &&
        g.issue.Some? &&
        (exists j :: 0 <= j < PrRetries && g.prCreated(j)) &&
        writes == [WithWatermark(batch.track, batch.commits[|batch.commits| - 1].commitId)] &&
        r == Returns(Some(IssueRow(g.issue.value, batch.track.repo, batch.track.branch))))
  {
    var (ok, c2) := Prepared(batch, curTime, g, spec);
    if ok == Returns(true) {
      IssueAndPrWatermark(batch, body, curTime, g, c2);
    }
  }

  /** Ten failed pull-request attempts end the job with no watermark move and no issue
      reported, however everything before succeeded. */
  lemma PublishAllPrFail(batch: PatchBatch, curTime: string, g: Gitee, spec: (Run<bool>, seq<GiteeCall>),
                         body: string)
    requires spec.0.Returns? ==> |batch.commits| > 0
    requires forall j :: 0 <= j < PrRetries ==> !g.prCreated(j)
    ensures var (r, calls, writes) := PublishSteps(batch, curTime, g, spec, body);
      writes == [] && (r.Returns? ==> r.value.None?)
  {
    PublishWatermark(batch, curTime, g, spec, body);
  }

  // ---------------------------------------------------------------------------
  // get_scm_patch and upload_patch_to_gitee

  /** `get_scm_patch`: the batch exactly when the backend produced a non-empty list of records.
      A factory that produced no backend leaves `git_api` None, whose method call raises
      AttributeError. */
  function ScmBatch(track: Track, backend: Option<Upstream.Backend>, env: Upstream.UpstreamEnv): (res: (Run<Option<PatchBatch>>, seq<Track>))
    ensures backend.None? ==> res == (Raises(AttributeError), [])
    ensures res.0.Returns? && res.0.value.Some? ==>
      backend.Some? && res.0.value.value.track == track && res.0.value.value.commits != [] &&
      Upstream.ScmPatch(backend.value, env).0 == Returns(Some(res.0.value.value.commits))
    ensures (backend.Some? && Upstream.ScmPatch(backend.value, env).0.Returns? &&
             Upstream.ScmPatch(backend.value, env).0.value.Some? &&
             Upstream.ScmPatch(backend.value, env).0.value.value != []) ==>
      res.0 == Returns(Some(PatchBatch(track, Upstream.ScmPatch(backend.value, env).0.value.value)))
  {
    if backend.None? then (Raises(AttributeError), [])
    else
      var (r, writes) := Upstream.ScmPatch(backend.value, env);
      var batch :=
        match r
        case Returns(Some(list)) => if list != [] then Returns(Some(PatchBatch(track, list))) else Returns(None)
        case Returns(None) => Returns(None)
        case Raises(e) => Raises(e)
        case OutOfFuel => OutOfFuel;
      (batch, writes)
  }

  method GetScmPatch(track: Track, backend: Option<Upstream.Backend>, env: Upstream.UpstreamEnv)
    returns (r: Run<Option<PatchBatch>>, writes: seq<Track>)
    ensures (r, writes) == ScmBatch(track, backend, env)
  {
    if backend.None? {
      return Raises(AttributeError), [];
    }
    var commitList;
    commitList, writes := Upstream.GetScmPatch(backend.value, env);
    match commitList
    case Returns(Some(list)) =>
      r := if list != [] then Returns(Some(PatchBatch(track, list))) else Returns(None);
    case Returns(None) =>
      r := Returns(None);
    case Raises(e) =>
      r := Raises(e);
    case OutOfFuel =>
      r := OutOfFuel;
  }

  /** One run of `upload_patch_to_gitee` against the tracking table `tracks`: how it ends,
      the Gitee calls, the `update_tracking` writes and the issue rows `create_issue_db`
      adds. */
  function Cycle(tracks: map<Key, Track>, track: Track, curTime: string, today: string,
                 env: Upstream.UpstreamEnv, g: Gitee, modifySpec: SpecEditor)
    : (Run<()>, seq<GiteeCall>, seq<Track>, seq<IssueRow>)
  {
    var backend := Upstream.Create(track);
    var (b, scmWrites) := ScmBatch(track, backend, env);
    match b
    case Raises(e) => (Raises(e), [], scmWrites, [])
    case OutOfFuel => (OutOfFuel, [], scmWrites, [])
    case Returns(None) => (Returns(()), [], scmWrites, [])
    case Returns(Some(batch)) =>
      Recorded(tracks, scmWrites, PublishBatch(batch, backend.value, curTime, today, g, modifySpec))
  }

  /** The end of the cycle, after `create_patch_issue_pr` has answered `pub`: the writes are
      applied, and a reported issue is recorded with repo and branch taken from the tracking
      row found under its key; no row there makes `tracking.repo` raise AttributeError. */
  function Recorded(tracks: map<Key, Track>, scmWrites: seq<Track>,
                    pub: (Run<Option<IssueRow>>, seq<GiteeCall>, seq<Track>))
    : (Run<()>, seq<GiteeCall>, seq<Track>, seq<IssueRow>)
  {
    var (r, calls, writes) := pub;
    var allWrites := scmWrites + writes;
    match r
    case Raises(e) => (Raises(e), calls, allWrites, [])
    case OutOfFuel => (OutOfFuel, calls, allWrites, [])
    case Returns(None) => (Returns(()), calls, allWrites, [])
    case Returns(Some(issue)) =>
      var updated := Applied(tracks, allWrites);
      var key := Key(issue.repo, issue.branch);
      if key !in updated then (Raises(AttributeError), calls, allWrites, [])
      else (Returns(()), calls, allWrites, [IssueRow(issue.issue, updated[key].repo, updated[key].branch)])
  }

  /** At most the reported issue is recorded, under the repo and branch it names, and only
      when the tracking table has a row for them. */
  lemma RecordedIssue(tracks: map<Key, Track>, scmWrites: seq<Track>,
                      pub: (Run<Option<IssueRow>>, seq<GiteeCall>, seq<Track>))
    requires Keyed(tracks)
    ensures var (r, calls, writes, issues) := Recorded(tracks, scmWrites, pub);
      |issues| <= 1 &&
      (issues != [] ==>
        pub.0.Returns? && pub.0.value.Some? &&
        Key(pub.0.value.value.repo, pub.0.value.value.branch) in tracks && issues == [pub.0.value.value])
  {
    AppliedKeepsKeys(tracks, scmWrites + pub.2);
  }

  /** A cycle records at most one issue, and then it names the tracked repository and
      branch; no issue is recorded unless a row for them exists and pull-request creation
      succeeded. */
  lemma CycleRecordsIssue(tracks: map<Key, Track>, track: Track, curTime: string, today: string,
                          env: Upstream.UpstreamEnv, g: Gitee, modifySpec: SpecEditor)
    requires Keyed(tracks)
    ensures var (r, calls, writes, issues) := Cycle(tracks, track, curTime, today, env, g, modifySpec);
      |issues| <= 1 &&
      (issues != [] ==>
        KeyOf(track) in tracks && g.issue.Some? && (exists j :: 0 <= j < PrRetries && g.prCreated(j)) &&
        issues[0] == IssueRow(g.issue.value, track.repo, track.branch))
  {
    var backend := Upstream.Create(track);
    var (b, scmWrites) := ScmBatch(track, backend, env);
    if b.Returns? && b.value.Some? {
      var batch := b.value.value;
      var spec := UploadSpecToRepo(batch, Ids(batch.commits), curTime, today, g, modifySpec);
      var body := Upstream.IssueTableText(backend.value, batch.commits);
      var pub := PublishSteps(batch, curTime, g, spec, body);
      assert PublishBatch(batch, backend.value, curTime, today, g, modifySpec) == pub;
      PublishWatermark(batch, curTime, g, spec, body);
      RecordedIssue(tracks, scmWrites, pub);
    }
  }

  /** `upload_patch_to_gitee` on the tracking store. */
  method UploadPatchToGitee(store: TrackingStore, track: Track, curTime: string, today: string,
                            env: Upstream.UpstreamEnv, g: Gitee, modifySpec: SpecEditor)
    returns (r: Run<()>, calls: seq<GiteeCall>)
    requires store.Valid()
    modifies store
    ensures store.Valid()
    ensures var (r', calls', writes, issues) := Cycle(old(store.tracks), track, curTime, today, env, g, modifySpec);
      r == r' && calls == calls' &&
      store.tracks == Applied(old(store.tracks), writes) && store.issues == old(store.issues) + issues
  {
    calls := [];
    var gitApi := Upstream.Create(track);
    var patch, scmWrites := GetScmPatch(track, gitApi, env);
    store.UpdateAll(scmWrites);
    if !patch.Returns? {
      r := if patch.Raises? then Raises(patch.error) else OutOfFuel;
      assert store.issues == old(store.issues) + [];
      return;
    }
    if patch.value.None? {
      assert store.issues == old(store.issues) + [];
      return Returns(()), calls;
    }
    var issue, writes;
    issue, calls, writes := CreatePatchIssuePr(patch.value.value, gitApi.value, curTime, today, g, modifySpec);
    ghost var tracks0 := store.tracks;
    store.UpdateAll(writes);
    AppliedConcat(old(store.tracks), scmWrites, writes);
    if !issue.Returns? {
      r := if issue.Raises? then Raises(issue.error) else OutOfFuel;
      assert store.issues == old(store.issues) + [];
      return;
    }
    if issue.value.None? {
      assert store.issues == old(store.issues) + [];
      return Returns(()), calls;
    }
    var key := Key(issue.value.value.repo, issue.value.value.branch);
    if key !in store.tracks {
      assert store.issues == old(store.issues) + [];
      return Raises(AttributeError), calls;
    }
    var tracking := store.tracks[key];
    store.CreateIssue(IssueRow(issue.value.value.issue, tracking.repo, tracking.branch));
    r := Returns(());
  }
}
