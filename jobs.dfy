/** The scheduler-facing jobs: which tracking rows become one-shot upload jobs, the
    bootstrap of empty watermarks, and the start-up credential check.

    The scheduler is seen through the ids of the jobs it holds and the trace of
    `add_job` calls; the GitHub and Git tip queries and the two user-info endpoints
    are oracles. */
module Jobs {
  import opened Wrappers
  import opened Text
  import opened Tracking
  import GitUpstream
  import Publish

  // ---------------------------------------------------------------------------
  // get_track_from_db and patch_tracking_task

  /** `Tracking.query.filter_by(enabled=True)`: the enabled rows, in table order. */
  function EnabledTracks(rows: seq<Track>): (r: seq<Track>)
    ensures forall t :: t in r <==> t in rows && t.enabled
    ensures |r| <= |rows|
  {
    if rows == [] then []
    else (if rows[0].enabled then [rows[0]] else []) + EnabledTracks(rows[1..])
  }

  /** A job the scheduler holds; only its id is read. */
  datatype ScheduledJob = ScheduledJob(id: string)

  /** One `add_job` call: the job id and the tracking row passed as its argument. */
  datatype Job = Job(id: string, track: Track)

  function JobId(t: Track): string {
    t.repo + ":" + t.branch
  }

  /** The first `/`-segment of the temporary branches the published patches go to. */
  const TemporaryRoot := "patch-tracking"

  /** `branch.split('/')[0] == 'patch-tracking'`. */
  predicate IsTemporaryBranch(branch: string) {
    Split(branch, '/')[0] == TemporaryRoot
  }

  /** The branch a publish step creates is a temporary branch, so a tracking row for it
      is never scheduled. */
  lemma NewBranchIsTemporary(curTime: string)
    ensures IsTemporaryBranch(Publish.NewBranch(curTime))
  {
    FirstSegmentIs(Publish.NewBranch(curTime), '/', TemporaryRoot);
  }

  /** A tracking row gets a job when its branch is not one of the temporary branches and
      no job with its id was scheduled before the scan. */
  predicate Selected(t: Track, snapshot: seq<string>) {
    !IsTemporaryBranch(t.branch) && JobId(t) !in snapshot
  }

  /** The `add_job` calls for `tracks`, against one snapshot of the job ids. */
  function JobsFor(tracks: seq<Track>, snapshot: seq<string>): (jobs: seq<Job>)
    ensures |jobs| <= |tracks|
  {
    if tracks == [] then []
    else
      var t := tracks[0];
      (if Selected(t, snapshot) then [Job(JobId(t), t)] else []) + JobsFor(tracks[1..], snapshot)
  }

  /** Exactly the selected rows get a job, under the id `repo:branch`. */
  lemma {:induction false} JobsForSelects(tracks: seq<Track>, snapshot: seq<string>)
    ensures forall j :: j in JobsFor(tracks, snapshot) ==>
      j.track in tracks && j.id == JobId(j.track) && Selected(j.track, snapshot)
    ensures forall t :: t in tracks && Selected(t, snapshot) ==> Job(JobId(t), t) in JobsFor(tracks, snapshot)
  {
    if tracks != [] {
      JobsForSelects(tracks[1..], snapshot);
      assert forall t :: t in tracks ==> t == tracks[0] || t in tracks[1..];
    }
  }

  /** The job ids of the scheduled jobs, in order. */
  function JobIds(jobs: seq<ScheduledJob>): (ids: seq<string>)
    ensures |ids| == |jobs| && forall k :: 0 <= k < |jobs| ==> ids[k] == jobs[k].id
  {
    if jobs == [] then [] else [jobs[0].id] + JobIds(jobs[1..])
  }

  /** `patch_tracking_task`: the job ids are collected first, then each enabled row is
      checked against that list and scheduled. */
  method PatchTrackingTask(rows: seq<Track>, scheduled: seq<ScheduledJob>) returns (added: seq<Job>)
    ensures added == JobsFor(EnabledTracks(rows), JobIds(scheduled))
  {
    var allTrack := EnabledTracks(rows);
    var allJobId := CollectJobIds(scheduled);
    added := AddJobs(allTrack, allJobId);
  }

  /** The first loop: `all_job_id.append(item.id)` for every scheduled job. */
  method CollectJobIds(scheduled: seq<ScheduledJob>) returns (allJobId: seq<string>)
    ensures allJobId == JobIds(scheduled)
  {
    allJobId := [];
    for i := 0 to |scheduled|
      invariant allJobId == JobIds(scheduled[..i])
    {
      assert scheduled[..i + 1] == scheduled[..i] + [scheduled[i]];
      JobIdsAppend(scheduled[..i], scheduled[i]);
      allJobId := allJobId + [scheduled[i].id];
    }
    assert scheduled[..|scheduled|] == scheduled;
  }

  /** The second loop: an `add_job` call for each selected row, in order. */
  method AddJobs(allTrack: seq<Track>, allJobId: seq<string>) returns (added: seq<Job>)
    ensures added == JobsFor(allTrack, allJobId)
  {
    added := [];
    for i := 0 to |allTrack|
      invariant added == JobsFor(allTrack[..i], allJobId)
    {
      var track := allTrack[i];
      assert allTrack[..i + 1] == allTrack[..i] + [track];
      JobsForAppend(allTrack[..i], [track], allJobId);
      JobsForOne(track, allJobId);
      if !IsTemporaryBranch(track.branch) {
        var jobId := track.repo + ":" + track.branch;
        if jobId !in allJobId {
          added := added + [Job(jobId, track)];
        }
      }
    }
    assert allTrack[..|allTrack|] == allTrack;
  }

  lemma JobsForOne(t: Track, snapshot: seq<string>)
    ensures JobsFor([t], snapshot) == if Selected(t, snapshot) then [Job(JobId(t), t)] else []
  {
    assert [t][1..] == [];
  }

  lemma JobIdsAppend(jobs: seq<ScheduledJob>, j: ScheduledJob)
    ensures JobIds(jobs + [j]) == JobIds(jobs) + [j.id]
  {
  }

  /** Scheduling two runs of rows is scheduling each against the same snapshot: a job
      added during the scan does not stop a later row with the same id. */
  lemma {:induction false} JobsForAppend(a: seq<Track>, b: seq<Track>, snapshot: seq<string>)
    ensures JobsFor(a + b, snapshot) == JobsFor(a, snapshot) + JobsFor(b, snapshot)
  {
    if a != [] {
      assert (a + b)[1..] == a[1..] + b;
      JobsForAppend(a[1..], b, snapshot);
    } else {
      assert a + b == b;
    }
  }

  /** The snapshot is not extended while jobs are added: two selected rows sharing an id
      both get a job. */
  lemma SnapshotNotExtended(t1: Track, t2: Track, snapshot: seq<string>)
    requires Selected(t1, snapshot) && Selected(t2, snapshot) && JobId(t1) == JobId(t2)
    ensures JobsFor([t1, t2], snapshot) == [Job(JobId(t1), t1), Job(JobId(t1), t2)]
  {
    assert [t1, t2][1..] == [t2];
  }

  /** A row is skipped for its branch exactly when the branch is `patch-tracking` or lies
      under `patch-tracking/`. */
  lemma SelectedBranch(t: Track, snapshot: seq<string>)
    ensures Selected(t, snapshot) <==>
      !(t.branch == TemporaryRoot || StartsWith(t.branch, TemporaryRoot + "/")) && JobId(t) !in snapshot
  {
    FirstSegmentIs(t.branch, '/', TemporaryRoot);
  }

  // ---------------------------------------------------------------------------
  // check_empty_commit_id

  /** What the tip queries answer for a tracking row: `GitHub(item).get_latest_commit_id()`
      (Some(latest_commit) on `'success'`) and `Git(item).git_latest_sha()` (None for a
      GitError). */
  datatype TipOracle = TipOracle(github: Track -> Option<string>, git: Track -> Option<string>)

  /** The scan from row `i` on: how the function ends and the `update_tracking` writes,
      after `writes` were made for the rows before `i`. `resultBound` says whether the
      local `result` was assigned by an earlier row: only the GitHub branch assigns it,
      and the branch for any other backend reads it. */
  function EmptyCommitScan(rows: seq<Track>, i: nat, resultBound: bool, writes: seq<Track>,
                           tips: TipOracle): (res: (Run<()>, seq<Track>))
    requires i <= |rows|
    ensures res.0 == Returns(()) || res.0 == Raises(UnboundLocalError)
    decreases |rows| - i
  {
    if i == |rows| then (Returns(()), writes)
    else
      var t := rows[i];
      if t.scmCommit != "" then EmptyCommitScan(rows, i + 1, resultBound, writes, tips)
      else if t.versionControl == "github" then
        match tips.github(t)
        case Some(c) => EmptyCommitScan(rows, i + 1, true, writes + [WithWatermark(t, c)], tips)
        case None => EmptyCommitScan(rows, i + 1, true, writes, tips)
      else if t.versionControl == "git" then
        var tip := tips.git(t);
        if !GitUpstream.Truthy(tip) then (Returns(()), writes)
        else EmptyCommitScan(rows, i + 1, resultBound, writes + [WithWatermark(t, tip.value)], tips)
      else if !resultBound then (Raises(UnboundLocalError), writes)
      else EmptyCommitScan(rows, i + 1, resultBound, writes, tips)
  }

  /** `check_empty_commit_id` over the rows of one query. */
  function CheckEmptyCommitIds(rows: seq<Track>, tips: TipOracle): (Run<()>, seq<Track>) {
    EmptyCommitScan(rows, 0, false, [], tips)
  }

  /** `w` fills the empty watermark of a GitHub or Git row of `rows` with the tip its query
      answered (for Git, a tip that is not empty), every other field copied. */
  predicate FillsEmptyWatermark(w: Track, rows: seq<Track>, tips: TipOracle) {
    var row := w.(scmCommit := "");
    row in rows &&
    (w.versionControl == "github" || w.versionControl == "git") &&
    (w.versionControl == "github" ==> tips.github(row) == Some(w.scmCommit)) &&
    (w.versionControl == "git" ==> tips.git(row) == Some(w.scmCommit) && w.scmCommit != "")
  }

  /** The scan only appends to the writes already made, and each write it appends fills an
      empty watermark. */
  lemma {:induction false} ScanWritesFillEmptyWatermarks(rows: seq<Track>, i: nat, resultBound: bool,
                                                         writes: seq<Track>, tips: TipOracle)
    requires i <= |rows|
    ensures var res := EmptyCommitScan(rows, i, resultBound, writes, tips);
      |writes| <= |res.1| && res.1[..|writes|] == writes &&
      forall k :: |writes| <= k < |res.1| ==> FillsEmptyWatermark(res.1[k], rows, tips)
    decreases |rows| - i
  {
    if i < |rows| {
      var t := rows[i];
      if t.scmCommit == "" && (t.versionControl == "github" || t.versionControl == "git") {
        var tip := if t.versionControl == "github" then tips.github(t) else tips.git(t);
        if tip.Some? {
          var w := WithWatermark(t, tip.value);
          assert w.(scmCommit := "") == t;
          var writes' := writes + [w];
          ScanWritesFillEmptyWatermarks(rows, i + 1, t.versionControl == "github" || resultBound, writes', tips);
          var res := EmptyCommitScan(rows, i + 1, t.versionControl == "github" || resultBound, writes', tips);
          assert res.1[..|writes'|][..|writes|] == writes;
          assert res.1[|writes|] == res.1[..|writes'|][|writes|];
        }
      }
      ScanWritesFillEmptyWatermarks(rows, i + 1, resultBound, writes, tips);
      ScanWritesFillEmptyWatermarks(rows, i + 1, true, writes, tips);
    }
  }

  /** A Git row with an empty watermark whose tip cannot be read ends the scan. */
  predicate StopsScan(t: Track, tips: TipOracle) {
    t.scmCommit == "" && t.versionControl == "git" && !GitUpstream.Truthy(tips.git(t))
  }

  /** Nothing after such a row is looked at: the scan ends as it would if the rows ended there. */
  lemma {:induction false} ScanStopsAtUnreadableGitTip(rows: seq<Track>, i: nat, j: nat, resultBound: bool,
                                                       writes: seq<Track>, tips: TipOracle)
    requires i <= j < |rows| && StopsScan(rows[j], tips)
    ensures EmptyCommitScan(rows, i, resultBound, writes, tips) ==
      EmptyCommitScan(rows[..j + 1], i, resultBound, writes, tips)
    decreases j - i
  {
    assert rows[..j + 1][i] == rows[i];
    if i < j {
      var t := rows[i];
      ScanStopsAtUnreadableGitTip(rows, i + 1, j, resultBound, writes, tips);
      ScanStopsAtUnreadableGitTip(rows, i + 1, j, true, writes, tips);
      if t.scmCommit == "" && t.versionControl == "github" && tips.github(t).Some? {
        ScanStopsAtUnreadableGitTip(rows, i + 1, j, true, writes + [WithWatermark(t, tips.github(t).value)], tips);
      }
      if t.scmCommit == "" && t.versionControl == "git" && tips.git(t).Some? {
        ScanStopsAtUnreadableGitTip(rows, i + 1, j, resultBound, writes + [WithWatermark(t, tips.git(t).value)], tips);
      }
    }
  }

  /** A row for neither backend with an empty watermark raises UnboundLocalError unless a
      GitHub row with an empty watermark came before it, or the scan stopped earlier. */
  lemma {:induction false} ScanUnbound(rows: seq<Track>, i: nat, j: nat, writes: seq<Track>, tips: TipOracle)
    requires i <= j < |rows|
    requires rows[j].scmCommit == "" && rows[j].versionControl != "github" && rows[j].versionControl != "git"
    requires forall k :: i <= k < j ==> rows[k].scmCommit != "" || rows[k].versionControl == "git"
    ensures EmptyCommitScan(rows, i, false, writes, tips).0 == Raises(UnboundLocalError) ||
      exists k :: i <= k < j && StopsScan(rows[k], tips)
    decreases j - i
  {
    if i < j && !StopsScan(rows[i], tips) {
      var t := rows[i];
      if t.scmCommit == "" && tips.git(t).Some? {
        ScanUnbound(rows, i + 1, j, writes + [WithWatermark(t, tips.git(t).value)], tips);
      } else {
        ScanUnbound(rows, i + 1, j, writes, tips);
      }
    }
  }

  /** When the scan returns and no row stops it, every row with an empty watermark whose
      tip was read gets that tip as its new watermark, with every other field kept. */
  lemma {:induction false} ScanWritesEveryTip(rows: seq<Track>, i: nat, resultBound: bool, writes: seq<Track>,
                                              tips: TipOracle, k: nat)
    requires i <= k < |rows| && rows[k].scmCommit == ""
    requires forall j :: i <= j < |rows| ==> !StopsScan(rows[j], tips)
    requires EmptyCommitScan(rows, i, resultBound, writes, tips).0 == Returns(())
    ensures var t := rows[k];
      var res := EmptyCommitScan(rows, i, resultBound, writes, tips);
      (t.versionControl == "github" && tips.github(t).Some? ==> WithWatermark(t, tips.github(t).value) in res.1) &&
      (t.versionControl == "git" && tips.git(t).Some? ==> WithWatermark(t, tips.git(t).value) in res.1)
    decreases |rows| - i
  {
    var t := rows[i];
    var tip := if t.versionControl == "github" then tips.github(t) else tips.git(t);
    var bound' := (t.scmCommit == "" && t.versionControl == "github") || resultBound;
    var writes' := if t.scmCommit == "" && (t.versionControl == "github" || t.versionControl == "git") && tip.Some?
      then writes + [WithWatermark(t, tip.value)] else writes;
    if i == k {
      if writes' != writes {
        ScanWritesFillEmptyWatermarks(rows, i + 1, bound', writes', tips);
        var res := EmptyCommitScan(rows, i + 1, bound', writes', tips);
        assert res.1[|writes|] == res.1[..|writes'|][|writes|];
      }
    } else {
      ScanWritesEveryTip(rows, i + 1, bound', writes', tips, k);
    }
  }

  /** `check_empty_commit_id` on the tracking store: each write goes through `update_tracking`. */
  method CheckEmptyCommitId(store: TrackingStore, rows: seq<Track>, tips: TipOracle) returns (r: Run<()>)
    requires store.Valid()
    modifies store
    ensures store.Valid() && store.issues == old(store.issues)
    ensures var (r', writes) := CheckEmptyCommitIds(EnabledTracks(rows), tips);
      r == r' && store.tracks == Applied(old(store.tracks), writes)
  {
    var newTrack := EnabledTracks(rows);
    var resultBound := false;
    ghost var writes: seq<Track> := [];
    for i := 0 to |newTrack|
      invariant store.Valid() && store.issues == old(store.issues)
      invariant store.tracks == Applied(old(store.tracks), writes)
      invariant CheckEmptyCommitIds(newTrack, tips) == EmptyCommitScan(newTrack, i, resultBound, writes, tips)
    {
      var item := newTrack[i];
      if item.scmCommit != "" {
        continue;
      }
      if item.versionControl == "github" {
        var tip := tips.github(item);
        resultBound := true;
        if tip.Some? {
          store.UpdateTracking(WithWatermark(item, tip.value));
          AppliedConcat(old(store.tracks), writes, [WithWatermark(item, tip.value)]);
          writes := writes + [WithWatermark(item, tip.value)];
        }
      } else if item.versionControl == "git" {
        var commitId := tips.git(item);
        if !GitUpstream.Truthy(commitId) {
          return Returns(());
        }
        store.UpdateTracking(WithWatermark(item, commitId.value));
        AppliedConcat(old(store.tracks), writes, [WithWatermark(item, commitId.value)]);
        writes := writes + [WithWatermark(item, commitId.value)];
      } else if !resultBound {
        return Raises(UnboundLocalError);
      }
    }
    r := Returns(());
  }

  // ---------------------------------------------------------------------------
  // check_token

  /** How a user-info request with a token ends. */
  datatype TokenReply = Accepted | Rejected | EncodeError

  /** The user-info endpoints `check_token` queries. */
  datatype UserInfoCall = GitHubUserInfo | GiteeUserInfo

  /** `check_token`: the GitHub check catches UnicodeEncodeError and counts it as a bad
      token; the Gitee check always runs and does not catch it. */
  method CheckToken(github: TokenReply, gitee: TokenReply) returns (r: Run<bool>, calls: seq<UserInfoCall>)
    ensures calls == [GitHubUserInfo, GiteeUserInfo]
    ensures r.Raises? <==> gitee == EncodeError
    ensures r.Raises? ==> r.error == UnicodeEncodeError
    ensures r == Returns(true) <==> github == Accepted && gitee == Accepted
    ensures gitee != EncodeError && github != Accepted ==> r == Returns(false)
  {
    var tokenError := false;
    calls := [GitHubUserInfo];
    if github != Accepted {
      tokenError := true;
    }
    calls := calls + [GiteeUserInfo];
    if gitee == EncodeError {
      return Raises(UnicodeEncodeError), calls;
    }
    if gitee == Rejected {
      tokenError := true;
    }
    if tokenError {
      return Returns(false), calls;
    }
    r := Returns(true);
  }
}
