# patch-tracking, modelled in Dafny

patch-tracking follows upstream repositories on GitHub or plain git. It publishes every
new upstream commit as a patch file on a temporary branch of the matching Gitee
repository. It then updates the package's spec file, opens an issue listing the
commits and opens a pull request. A tracking row holds the upstream repository and
the watermark (`scm_commit`), the last upstream commit already published.

This project models the synchronisation core:

- the two upstream backends (`git`, `github`) and the factory that picks one;
- the per-job publish step (`upload_patch_to_gitee` and what it calls);
- the scheduler-facing jobs (job selection, empty-watermark bootstrap, token check);
- the start-up settings validation.

Every file is imperative where the source is, and each method is proved against a
reference function.

External effects are values:

- Gitee calls, GitHub requests, `update_tracking` writes and `add_job` calls are
  returned as traces.
- What the outside world answers is an oracle parameter: `Gitee`, `GitHubApi`,
  `GitEnv`, `TipOracle`, and the token replies.
- Python exceptions are `Raises(e)` in `Wrappers.Run`.
- The tracking table and the issue log form the `Tracking.TrackingStore` class. The
  publish cycle and the empty-watermark scan update it in place.

Modules:

- `Wrappers`: Option, the Python error kinds, Run.
- `Text`: the string operations the code uses (`replace`, `rstrip`, `count`, `split`,
  `[0:7]`, `int()`).
- `Tracking`: rows, patch records, the issue table, the store.
- `GitUpstream`, `GitHubUpstream`, `Upstream`: the backends and the factory.
- `Publish`: `create_patch_issue_pr`, `upload_spec_to_repo`, `get_scm_patch`,
  `upload_patch_to_gitee`.
- `Jobs`: `patch_tracking_task`, `check_empty_commit_id`, `check_token`.
- `Settings`: `check_listen`, `check_settings_conf`.

The model follows the code as written:

- The git backend fetches and diffs, with no divergence detection, no look-back limit
  and no fetch retry.
- The git backend reads `iter_commits()` from HEAD of the mirror.
- Each git commit is diffed against the next older id in the list.
- The GitHub walk never includes a root commit; reaching one ends the walk.
- Every patch upload's commit URL points at github.com, whatever the backend.
- `check_empty_commit_id` can read an unbound `result`, and it stops the whole scan at
  the first git row whose tip cannot be read. Both are modelled as written.

## Model

| member | source | states |
|---|---|---|
| GitUpstream.UrlToDir | patch_tracking/util/upstream/git.py:15-23 | the mirror name holds no `/` or `:`, never ends in `.`, `g`, `i` or `t`, and is empty exactly when the URL consists only of those characters |
| GitUpstream.UrlToDirIgnoresStrippableTail | patch_tracking/util/upstream/git.py:19 | appending any run of `.`, `g`, `i`, `t` to a URL does not change its mirror name |
| GitUpstream.UrlToDirCollides | patch_tracking/util/upstream/git.py:19 | `a/art.git` and `a/ar` map to the same mirror directory |
| GitUpstream.MirrorDirName | patch_tracking/util/upstream/git.py:15-23 | the corrected mirror name (only a `.git` suffix removed) holds no `/` or `:` |
| GitUpstream.MirrorDirNameSuffixOptional | patch_tracking/util/upstream/git.py:19 | with the corrected name, a URL with and without `.git` name the same mirror |
| GitUpstream.MirrorDirNameSeparates | patch_tracking/util/upstream/git.py:19 | with the corrected name, `a/art.git` and `a/ar` get distinct mirrors |
| GitUpstream.Sanitize | patch_tracking/util/upstream/git.py:20-22 | the three replacements remove every `/` and `:`, keep the last character or end in `_`, and map empty to empty |
| GitUpstream.StripGitSuffix | patch_tracking/util/upstream/git.py:19 | the intended strip removes exactly one trailing `.git` and leaves other URLs unchanged |
| GitUpstream.SanitizeWithoutColonKeepsLength | patch_tracking/util/upstream/git.py:20-22 | on a path without `:` the replacements keep the length |
| GitUpstream.SanitizeLast | patch_tracking/util/upstream/git.py:20-22 | the replaced text ends with the original's last character or with `_` |
| GitUpstream.ScmPatchFetchGate | patch_tracking/util/upstream/git.py:183-190 | a missing mirror never cuts `get_scm_patch` short: it is cloned and the batch is `get_patch_list`'s; an existing mirror that fails to fetch gives the empty list and no write; one that fetches gives `get_patch_list`'s outcome, which can also be the empty list when nothing is new |
| GitUpstream.TakeUntil | patch_tracking/util/upstream/git.py:100-104 | the history prefix before the first occurrence of the watermark: a prefix free of it, ending at it or at the end |
| GitUpstream.TakeUntilUnique | patch_tracking/util/upstream/git.py:100-104 | those three properties determine the prefix |
| GitUpstream.CommitList | patch_tracking/util/upstream/git.py:92-106 | empty after a failed fetch; otherwise the newest-first history up to the watermark, then the watermark itself |
| GitUpstream.GetCommitList | patch_tracking/util/upstream/git.py:92-106 | the loop returns exactly CommitList |
| GitUpstream.FirstBadPair | patch_tracking/util/upstream/git.py:169-178 | the index of the first pair of consecutive ids whose info or diff fails: every earlier pair succeeds, that one fails |
| GitUpstream.PairPatches | patch_tracking/util/upstream/git.py:169-178 | one record per successful pair, in list order |
| GitUpstream.PairingShape | patch_tracking/util/upstream/git.py:169-181 | a list is produced exactly when every pair succeeds, and then it has one record per commit before the watermark, oldest first; the record for the k-th id holds its info and the diff against the (k+1)-th id; the list is empty exactly when the commit list has one id: HEAD is the watermark, or the history is a single commit |
| GitUpstream.GetPatchList | patch_tracking/util/upstream/git.py:136-181 | equals PatchList; an unreadable or empty tip gives None and no write; an empty watermark gives None and exactly one write that sets it to the tip; a failed fetch gives None |
| GitUpstream.GetScmPatch | patch_tracking/util/upstream/git.py:183-190 | a failed first fetch gives the empty list and no write; otherwise get_patch_list's outcome |
| GitUpstream.GitRows | patch_tracking/util/upstream/git.py:196-200 | one row per record, in order |
| GitUpstream.IssueTable | patch_tracking/util/upstream/git.py:192-202 | every message is overwritten with its normalised form; the table is the header, then one row per record in order, each starting with the 7-character short id; when no id or time holds a newline, the table split at newlines is exactly the two header lines, the rows and a final empty line |
| GitUpstream.GitRowsStartWithShortId | patch_tracking/util/upstream/git.py:198-199 | each row opens its first cell with the record's short id |
| GitUpstream.GitRowsHaveNoNewline | patch_tracking/util/upstream/git.py:197-200 | a row holds no newline when its id and time hold none, since the message is normalised |
| GitHubUpstream.WalkSkipsWatermark | patch_tracking/util/upstream/github.py:72 | the walk never requests the watermark's own information |
| GitHubUpstream.WalkFollowsNext | patch_tracking/util/upstream/github.py:72-99 | the requests start at the tip, and each later request is the parent of the one before, or the same commit again after a failed read |
| GitHubUpstream.WalkEndsAtWatermarkOrRoot | patch_tracking/util/upstream/github.py:72-94 | a walk that ends stopped at the watermark or at a commit without parent |
| GitHubUpstream.WalkPatchesAreKeptReversed | patch_tracking/util/upstream/github.py:76-88 | the records are exactly those of the visited commits that have a parent and a fetched patch, in reverse visiting order (oldest first) |
| GitHubUpstream.WalkRecordsAreKept | patch_tracking/util/upstream/github.py:72-94 | every record is of a commit other than the watermark and comes from one call of the walk whose read found a parent and whose patch fetch, in the same iteration, succeeded; the watermark and a root commit never appear |
| GitHubUpstream.FailingCommitIsAskedForever | patch_tracking/util/upstream/github.py:72-99 | a commit whose information reads keep failing is asked about at every step: nothing is recorded and the loop never ends |
| GitHubUpstream.RetryResumesAtParent | patch_tracking/util/upstream/github.py:72-99 | after any number of failed reads of a commit, a successful read that finds a parent continues the walk at that parent, as a walk started there would, with the commit's record added |
| GitHubUpstream.WalkFuelMonotone | patch_tracking/util/upstream/github.py:72 | more steps do not change a walk that has ended |
| GitHubUpstream.UpToDate | patch_tracking/util/upstream/github.py:72 | a tip equal to the watermark yields the empty list, no request and no write |
| GitHubUpstream.ThreeCommits | patch_tracking/util/upstream/github.py:72-101 | with history c1 <- c2 <- c3 and watermark c1, c3 and c2 are requested in that order and come back as the records of c2 then c3 |
| GitHubUpstream.GetPatchList | patch_tracking/util/upstream/github.py:41-101 | equals PatchList; no tip gives None with no request or write; an empty watermark gives None and one write that sets it to the tip; otherwise no write and the watermark is never requested |
| GitHubUpstream.WalkBack | patch_tracking/util/upstream/github.py:72-101 | the loop's records, requests and termination are exactly Walk |
| GitHubUpstream.GetScmPatch | patch_tracking/util/upstream/github.py:103-106 | the same outcome as get_patch_list |
| GitHubUpstream.CommitUrlShape | patch_tracking/util/upstream/github.py:112 | the commit URL starts with the github.com address of the repository and ends with `/commit/<full id>` |
| GitHubUpstream.GitHubRows | patch_tracking/util/upstream/github.py:111-116 | one row per record, in order |
| GitHubUpstream.IssueTable | patch_tracking/util/upstream/github.py:108-118 | messages normalised in place; header then one row per record in order, each starting with a link labelled with the short id to the commit URL; when no id, time or the repository name holds a newline, the table split at newlines is exactly the header lines, the rows and a final empty line |
| GitHubUpstream.TableFacts | patch_tracking/util/upstream/github.py:111-118 | the finished table's rows start with their links, and line splitting recovers them |
| GitHubUpstream.GitHubRowsStart | patch_tracking/util/upstream/github.py:114-115 | each row starts with the link to its commit |
| GitHubUpstream.GitHubRowsHaveNoNewline | patch_tracking/util/upstream/github.py:113-116 | a row holds no newline when the repository, id and time hold none |
| Upstream.Create | patch_tracking/util/upstream/__init__.py:11-19 | a backend exists exactly for `github` and `git`; it keeps the tracking row; the git backend's mirror directory is `url_to_dir` of the upstream URL, as written |
| Upstream.GitBackendsShareMirror | patch_tracking/util/upstream/git.py:42 | the git backends of `a/art.git` and `a/ar` get the same mirror directory |
| Upstream.ScmPatchWrites | patch_tracking/util/upstream/git.py:146-163 | a backend writes to the tracking table only on an empty watermark, and then writes exactly its own row with the tip it read (`git_latest_sha` or `get_latest_commit`) as watermark, and returns None |
| Upstream.GetScmPatch | patch_tracking/task/task_apscheduler.py:56 | dispatches `get_scm_patch` to the backend |
| Upstream.IssueTable | patch_tracking/task/task_apscheduler.py:114 | dispatches `issue_table`; the records come back normalised |
| Tracking.NormalizeMessage | patch_tracking/util/upstream/git.py:197 | a normalised message holds no `\r` and no `\n` |
| Tracking.NormalizeIdempotent | patch_tracking/task/task_apscheduler.py:84 | normalising twice equals normalising once |
| Tracking.NormalizedAll | patch_tracking/task/task_apscheduler.py:82-84 | every record normalised, in order, nothing else changed |
| Tracking.NormalizedAllIdempotent | patch_tracking/task/task_apscheduler.py:84 | the upload loop's overwrite followed by the issue table's normalisation equals one normalisation |
| Tracking.TableTextAppend | patch_tracking/util/upstream/git.py:198-200 | each record adds one line at the end of the table |
| Tracking.TableLines | patch_tracking/util/upstream/git.py:195-202 | a table of newline-free rows splits into the two header lines, the rows and a final empty line |
| Tracking.AppliedKeepsKeys | patch_tracking/task/task_apscheduler.py:146 | `update_tracking` writes never add or remove a tracking row and keep each row under its own key |
| Tracking.AppliedConcat | patch_tracking/task/task_apscheduler.py:146 | applying two runs of writes in turn is applying them concatenated |
| Tracking.TrackingStore.constructor | patch_tracking/task/task.py:138-143 | the store starts with the given rows and no issue |
| Tracking.TrackingStore.UpdateTracking | patch_tracking/task/task_apscheduler.py:146 | replaces the row with the same (repo, branch), if any, and leaves the issue log alone |
| Tracking.TrackingStore.UpdateAll | patch_tracking/task/task_apscheduler.py:146 | applies the writes in order |
| Tracking.TrackingStore.CreateIssue | patch_tracking/task/task_apscheduler.py:218-228 | appends one issue row and leaves the tracking rows alone |
| Jobs.NewBranchIsTemporary | patch_tracking/task/task_apscheduler.py:74 | the branch a publish step creates is a temporary branch, so a tracking row for it is never given a job |
| Publish.Ids | patch_tracking/task/task_apscheduler.py:105 | the uploaded ids, in record order |
| Publish.PatchFileNames | patch_tracking/task/task_apscheduler.py:165 | one `<id>.patch` file name per id, in order |
| Publish.UploadSpecToRepo | patch_tracking/task/task_apscheduler.py:156-181 | returns only with at least one id; otherwise it raises |
| Publish.UploadSpecToRepoShape | patch_tracking/task/task_apscheduler.py:156-181 | ValueError exactly when the Gitee path has not exactly one `/`; IndexError exactly when there is no id; otherwise the spec file is read from the base branch, then updated with its sha or else created, on the temporary branch, with the edited changelog naming the first and last id |
| Publish.UploadCalls | patch_tracking/task/task_apscheduler.py:82-104 | one upload call per record up to n |
| Publish.UploadCallsAt | patch_tracking/task/task_apscheduler.py:82-95 | the k-th upload call is the one for the k-th record |
| Publish.FirstFailedUpload | patch_tracking/task/task_apscheduler.py:95-104 | every upload before it succeeded, and it failed |
| Publish.FirstPrSuccess | patch_tracking/task/task_apscheduler.py:121-132 | every attempt before it failed, and it succeeded or is the tenth |
| Publish.Prepared | patch_tracking/task/task_apscheduler.py:74-112 | the steps before the issue succeed only if the branch was created and every upload succeeded, and then they answer what the spec-file step answered |
| Publish.UploadPatches | patch_tracking/task/task_apscheduler.py:81-105 | the loop uploads in record order up to and including the first failure; on success every message is normalised and the ids are all the records' ids |
| Publish.RetryPullRequest | patch_tracking/task/task_apscheduler.py:121-132 | at most ten attempts, stopping at the first success; success exactly when one of the ten attempts succeeded |
| Publish.CreatePatchIssuePr | patch_tracking/task/task_apscheduler.py:65-153 | the method's outcome, calls and writes are exactly PublishBatch |
| Publish.PrepareBranch | patch_tracking/task/task_apscheduler.py:70-112 | exactly Prepared; on success the records come back normalised |
| Publish.CreateIssueAndPr | patch_tracking/task/task_apscheduler.py:114-153 | exactly IssueAndPr with the backend's table as the issue body |
| Publish.UploadSpecToRepoHasNoPr | patch_tracking/task/task_apscheduler.py:156-181 | the spec-file step makes no pull request |
| Publish.PreparedUploadsInOrder | patch_tracking/task/task_apscheduler.py:75-104 | the trace starts with the branch creation, then one upload per record in order; a failed upload is the last call |
| Publish.PublishUploadsInOrder | patch_tracking/task/task_apscheduler.py:65-153 | the whole trace keeps that prefix; a failed upload ends the job with None and no write |
| Publish.PublishShortCircuits | patch_tracking/task/task_apscheduler.py:75-112 | a failure before the issue ends the job with None or the exception and no write; a failed branch creation is the only call; once branch and uploads succeed, the spec-file step decides and is the last step before the issue |
| Publish.IssueAndPrExtends | patch_tracking/task/task_apscheduler.py:114-132 | the issue and PR stage only appends to the trace |
| Publish.PreparedHasNoPr | patch_tracking/task/task_apscheduler.py:74-112 | no pull request is attempted before the issue |
| Publish.IssueAndPrAttempts | patch_tracking/task/task_apscheduler.py:116-132 | no attempt without an issue; otherwise attempts up to the first success, at most ten |
| Publish.PublishPrAttempts | patch_tracking/task/task_apscheduler.py:65-153 | at most ten pull-request attempts, and none unless the branch, every upload, the spec file and the issue succeeded |
| Publish.PublishBatchPrAttempts | patch_tracking/task/task_apscheduler.py:65-153 | the same for the spec-file step the job runs |
| Publish.IssueAndPrWatermark | patch_tracking/task/task_apscheduler.py:116-153 | the watermark moves exactly when an issue dict is returned, exactly when the issue and one of the ten PR attempts succeeded; the new watermark is the last (newest) record's id |
| Publish.PublishWatermark | patch_tracking/task/task_apscheduler.py:65-153 | the watermark moves, and an issue is reported, only after the branch, every upload, the spec file, the issue and a PR attempt all succeeded; every other field of the row is kept |
| Publish.PublishAllPrFail | patch_tracking/task/task_apscheduler.py:130-132 | ten failed PR attempts leave the watermark and report no issue |
| Publish.ScmBatch | patch_tracking/task/task_apscheduler.py:40-62 | no backend raises AttributeError; a batch is produced exactly when the backend returns a non-empty list of records, and it carries the tracking row and that list |
| Publish.GetScmPatch | patch_tracking/task/task_apscheduler.py:40-62 | the method is exactly ScmBatch |
| Publish.RecordedIssue | patch_tracking/task/task_apscheduler.py:218-228 | at most the reported issue is recorded, and only when a row exists for its repo and branch |
| Publish.CycleRecordsIssue | patch_tracking/task/task_apscheduler.py:21-37 | one job records at most one issue: only when the row exists, the issue was created and a PR attempt succeeded, and it names the tracked repo and branch |
| Publish.UploadPatchToGitee | patch_tracking/task/task_apscheduler.py:21-37 | the store ends as Cycle says: the writes applied in order, at most one issue row appended |
| Jobs.EnabledTracks | patch_tracking/task/task.py:138-143 | exactly the enabled rows |
| Jobs.JobsFor | patch_tracking/task/task.py:155-163 | at most one job per row |
| Jobs.JobsForSelects | patch_tracking/task/task.py:155-163 | a row gets a job, under the id `repo:branch`, exactly when its branch is not a temporary one and the id was not scheduled before the scan |
| Jobs.JobIds | patch_tracking/task/task.py:152-154 | the scheduled job ids, in order |
| Jobs.PatchTrackingTask | patch_tracking/task/task.py:146-163 | the `add_job` calls are exactly JobsFor over the enabled rows against the ids scheduled before the scan |
| Jobs.CollectJobIds | patch_tracking/task/task.py:152-154 | the first loop collects exactly JobIds |
| Jobs.AddJobs | patch_tracking/task/task.py:155-163 | the second loop adds exactly JobsFor |
| Jobs.JobsForAppend | patch_tracking/task/task.py:155-158 | every row is judged against the same snapshot of ids |
| Jobs.SnapshotNotExtended | patch_tracking/task/task.py:152-158 | two selected rows with the same id both get a job |
| Jobs.SelectedBranch | patch_tracking/task/task.py:156 | a branch is skipped exactly when it is `patch-tracking` or starts with `patch-tracking/` |
| Jobs.EmptyCommitScan | patch_tracking/task/task.py:84-135 | the scan returns or raises UnboundLocalError, nothing else |
| Jobs.ScanWritesFillEmptyWatermarks | patch_tracking/task/task.py:91-128 | the scan only appends writes, and each sets the empty watermark of a GitHub or git row to the tip its query answered |
| Jobs.ScanStopsAtUnreadableGitTip | patch_tracking/task/task.py:113-117 | a git row whose tip cannot be read ends the scan; rows after it are never examined |
| Jobs.ScanUnbound | patch_tracking/task/task.py:129-133 | a row for neither backend with an empty watermark raises UnboundLocalError unless a GitHub row with an empty watermark came first or the scan stopped earlier |
| Jobs.ScanWritesEveryTip | patch_tracking/task/task.py:93-128 | when the scan returns and none stops it, every empty-watermark row whose tip was read gets it as watermark |
| Jobs.CheckEmptyCommitId | patch_tracking/task/task.py:84-135 | the store ends with the scan's writes applied and the issue log unchanged; the outcome is the scan's |
| Jobs.CheckToken | patch_tracking/task/task.py:17-40 | both endpoints are always queried; it raises exactly on the Gitee encoding error; it answers true exactly when both tokens are accepted |
| Settings.OctetsCheck | patch_tracking/app.py:27-29 | the host-part loop returns or raises ValueError |
| Settings.OctetsCheckMeaning | patch_tracking/app.py:27-29 | it raises exactly when some part is not a number, and passes exactly when every part is a number in 0..255 |
| Settings.ListenCheck | patch_tracking/app.py:19-34 | `check_listen` returns, raises ValueError, or (for an integer value) raises TypeError |
| Settings.ListenAccepts | patch_tracking/app.py:19-34 | LISTEN passes exactly when it has one `:`, a port in 1..65535 and a host of four dotted numbers in 0..255 |
| Settings.ListenRefuses | patch_tracking/app.py:22-33 | a wrong `:` count, a wrong `.` count or a port out of range is refused without raising, once the numbers parse |
| Settings.CheckListen | patch_tracking/app.py:19-34 | the flag-based check answers exactly ListenCheck |
| Settings.CheckOctets | patch_tracking/app.py:27-29 | the loop answers the octet check combined with the incoming flag |
| Settings.IntOf | patch_tracking/app.py:52 | `int()` keeps an integer and parses a string, raising ValueError on a non-number |
| Settings.SettingsExitMeaning | patch_tracking/app.py:41-64 | when no rule raises, the program exits exactly when some required setting is wrong |
| Settings.MissingSettingExits | patch_tracking/app.py:44-62 | a missing or empty required setting makes the program exit |
| Settings.UserLength | patch_tracking/app.py:57-59 | USER longer than 32 characters is wrong; exactly 32 is accepted |
| Settings.IntervalRule | patch_tracking/app.py:52-56 | SCAN_DB_INTERVAL of zero or less is wrong; a non-number raises ValueError |
| Settings.CheckSettingsConf | patch_tracking/app.py:37-64 | the loop answers exactly SettingsExit |
| Text.RStrip | patch_tracking/util/upstream/git.py:19 | `rstrip(chars)` keeps the longest prefix that does not end in a character of the set |
| Text.ShortId | patch_tracking/util/upstream/git.py:199 | `[0:7]` is the first seven characters, or the whole id when it is shorter |
| Text.ParseInt | patch_tracking/app.py:24 | `int()` on ASCII text accepts exactly an optional sign followed by decimal digits; a negative value has a leading `-` |
| Text.Split | patch_tracking/task/task.py:156 | `split(c)` gives one more part than there are separators, none containing the separator |
| Text.SplitJoin | patch_tracking/task/task.py:156 | splitting a join of separator-free parts gives them back |
| Text.FirstSegmentIs | patch_tracking/task/task.py:156 | the first segment is `p` exactly when the text is `p` or starts with `p` and the separator |

## Left out

- Logging, `time.sleep(random.random() * 5)` between PR attempts, and timestamp formatting (`cur_time`, `time_stamp_to_utc`). The time stamps are string parameters.
- The Gitee and GitHub HTTP clients, GitPython and the database. Their answers are oracle parameters, and the calls made are returned as traces.
- `base64` decoding of the spec file, and the `Spec` class that edits it. `modify_spec` is a function parameter (`Publish.SpecEditor`); the Spec class is not part of this model.
- `SQLAlchemyError` handling around `update_tracking`. A write either replaces the row with the same (repo, branch) or changes nothing.
- apscheduler itself: `init`, `scheduler.start`, the interval jobs, thread pools, and the `ConflictingIdError` a duplicate id would raise at `add_job`. Jobs are returned as a trace of `add_job` calls.
- The order of the database query is a parameter (the sequence of rows).
- GitHubUpstream.Kept: the record of a GitHub commit is built from the id that was asked about and the message and time of its reply. The fields of the dict `get_commit_info` returns in github.py:74 come from the GitHub API client, which is not part of this model.
- GitHubUpstream.GetPatchList: the source loop has no bound. The model walks at most `fuel` steps and reports `OutOfFuel` where the source would loop forever; `WalkFuelMonotone` shows that the bound does not change a walk that ends.
- The aliasing of the commit dicts between `get_scm_patch`, the upload loop and `issue_table`. The records are values; the in-place message rewrite is modelled as an updated sequence, and `NormalizedAllIdempotent` shows the second rewrite changes nothing.
- Settings: configuration values other than strings and integers; `int()` on text with surrounding whitespace, `_` digit separators or non-ASCII decimal digits such as `٨٠` (`Text.ParseInt` refuses all three, so `Settings.ListenCheck` raises ValueError for `127.0.0.1:٨٠`, which `check_listen` accepts); and the `.strip()` calls after the check. `sys.exit(1)` is the answer `Returns(true)`.
- `create_issue_db` looks the row up with `filter_by(...).first()`. It is modelled as a lookup under the (repo, branch) key, which the tracking table keeps unique.
- Upstream.Create: the git backend keeps the mirror directory name that `url_to_dir` computes, but the backend's `get_scm_patch` does not read it, since the mirror is part of the `GitEnv` oracle. So two rows that share a mirror (`GitBackendsShareMirror`) are not modelled as fetching into the same directory.
- `git_clone`'s own success: `git_fetch` ignores it, so it is not modelled.

## Findings

| source | as written | input that shows it | evidently intended | confidence | as-written member | corrected member |
|---|---|---|---|---|---|---|
| patch_tracking/util/upstream/git.py:19 | `repo_url.rstrip(".git")` strips any trailing run of the characters `.`, `g`, `i`, `t` | `a/art.git` and `a/ar` both map to the mirror directory `a_ar`, so two upstream repositories share one mirror | remove exactly one trailing `.git` suffix | high, not executed | GitUpstream.UrlToDirCollides | GitUpstream.MirrorDirNameSeparates |
