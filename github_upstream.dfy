/** The `github` backend: starting at the tip of the tracked branch, the commits are
    walked backwards through their parent links until the watermark is met, asking the
    GitHub API for each commit's information and patch.

    The GitHub API is an oracle (`GitHubApi`): the tip it reports for the tracked branch,
    and the reply to each commit-information and patch request of the walk. */
module GitHubUpstream {
  import opened Wrappers
  import opened Text
  import opened Tracking

  /** `get_commit_info`: a failure, or the commit's message, time and (absent for a root
      commit) its parent. */
  datatype CommitInfoReply =
    | InfoFailed
    | InfoOk(message: string, time: string, parent: Option<string>)

  /** The replies are indexed by the position of the call in the walk: `info(c, n)` is what
      the `n`-th `get_commit_info` call of the walk (counting from 0) returns when it asks
      about `c`, and `patch(c, n)` what the `get_patch` call of that same loop iteration
      returns. A commit whose read failed can therefore be read successfully later. */
  datatype GitHubApi = GitHubApi(
    latest: Option<string>,                  // get_latest_commit: None unless status is 'success'
    info: (string, nat) -> CommitInfoReply,  // get_commit_info, by commit id and call number
    patch: (string, nat) -> Option<string>)  // get_patch: None unless status is 'success'

  /** The commit the walk asks about after the `n`-th call, which asked about `c`: the same
      commit again when its information could not be read, otherwise its parent. */
  function Next(api: GitHubApi, c: string, n: nat): Option<string> {
    match api.info(c, n)
    case InfoFailed => Some(c)
    case InfoOk(_, _, parent) => parent
  }

  /** The record the `n`-th call, about `c`, contributes: only a commit with a parent
      whose patch was fetched. The record's id is the id that was asked about. */
  function Kept(api: GitHubApi, c: string, n: nat): seq<Patch> {
    match api.info(c, n)
    case InfoOk(m, t, Some(_)) =>
      (match api.patch(c, n)
       case Some(content) => [Patch(c, m, t, content)]
       case None => [])
    case _ => []
  }

  /** The records of the calls `n`, `n + 1`, ... about the commits `cs`, in call order. */
  function KeptAll(api: GitHubApi, cs: seq<string>, n: nat): seq<Patch>
    decreases |cs|
  {
    if cs == [] then [] else Kept(api, cs[0], n) + KeptAll(api, cs[1..], n + 1)
  }

  /** `k` copies of the commit `c`. */
  function Repeated(c: string, k: nat): (s: seq<string>)
    ensures |s| == k && forall i :: 0 <= i < k ==> s[i] == c
  {
    if k == 0 then [] else [c] + Repeated(c, k - 1)
  }

  /** Where the backward walk from `cur` to the watermark `wm` ends, when `n` calls were
      made before: the records collected (oldest first, because each is inserted at the
      front), the commit ids whose information was requested, in order, and whether the
      loop ended. The loop has no bound (a commit whose information keeps failing is asked
      about forever), so the walk takes at most `fuel` steps. */
  datatype Walked = Walked(patches: seq<Patch>, requests: seq<string>, finished: bool)

  function Walk(wm: string, cur: string, api: GitHubApi, n: nat, fuel: nat): Walked
    decreases fuel
  {
    if cur == wm then Walked([], [], true)
    else if fuel == 0 then Walked([], [], false)
    else
      match api.info(cur, n)
      case InfoFailed =>
        var w := Walk(wm, cur, api, n + 1, fuel - 1);
        Walked(w.patches, [cur] + w.requests, w.finished)
      case InfoOk(_, _, None) => Walked([], [cur], true)
      case InfoOk(_, _, Some(p)) =>
        var w := Walk(wm, p, api, n + 1, fuel - 1);
        Walked(w.patches + Kept(api, cur, n), [cur] + w.requests, w.finished)
  }

  /** The walk never asks about the watermark. */
  lemma {:induction false} WalkSkipsWatermark(wm: string, cur: string, api: GitHubApi, n: nat, fuel: nat)
    ensures wm !in Walk(wm, cur, api, n, fuel).requests
    decreases fuel
  {
    if cur != wm && fuel > 0 {
      match api.info(cur, n)
      case InfoFailed => WalkSkipsWatermark(wm, cur, api, n + 1, fuel - 1);
      case InfoOk(_, _, None) =>
      case InfoOk(_, _, Some(p)) => WalkSkipsWatermark(wm, p, api, n + 1, fuel - 1);
    }
  }

  /** The walk starts at the tip and follows Next: each request after the first is the
      successor of the one before it, under the reply to that earlier call. */
  lemma {:induction false} WalkFollowsNext(wm: string, cur: string, api: GitHubApi, n: nat, fuel: nat)
    ensures var rs := Walk(wm, cur, api, n, fuel).requests;
      (rs != [] <==> cur != wm && fuel > 0) &&
      (rs != [] ==> rs[0] == cur) &&
      forall k :: 0 <= k < |rs| - 1 ==> Next(api, rs[k], n + k) == Some(rs[k + 1])
    decreases fuel
  {
    if cur != wm && fuel > 0 {
      var rs := Walk(wm, cur, api, n, fuel).requests;
      match api.info(cur, n)
      case InfoFailed =>
        WalkFollowsNext(wm, cur, api, n + 1, fuel - 1);
        FollowsNextStep(api, cur, n, Walk(wm, cur, api, n + 1, fuel - 1).requests);
      case InfoOk(_, _, None) =>
      case InfoOk(_, _, Some(p)) =>
        WalkFollowsNext(wm, p, api, n + 1, fuel - 1);
        FollowsNextStep(api, cur, n, Walk(wm, p, api, n + 1, fuel - 1).requests);
    }
  }

  /** Prefixing one request whose successor is the head of the rest keeps the chain. */
  lemma FollowsNextStep(api: GitHubApi, cur: string, n: nat, rest: seq<string>)
    requires rest != [] ==> Next(api, cur, n) == Some(rest[0])
    requires forall k :: 0 <= k < |rest| - 1 ==> Next(api, rest[k], n + 1 + k) == Some(rest[k + 1])
    ensures var rs := [cur] + rest;
      forall k :: 0 <= k < |rs| - 1 ==> Next(api, rs[k], n + k) == Some(rs[k + 1])
  {
    var rs := [cur] + rest;
    forall k | 0 <= k < |rs| - 1
      ensures Next(api, rs[k], n + k) == Some(rs[k + 1])
    {
      if k > 0 {
        assert rs[k] == rest[k - 1] && rs[k + 1] == rest[k];
        assert n + k == n + 1 + (k - 1);
      }
    }
  }

  /** When the loop ends, it has met the watermark or a root commit: the successor of the
      last request is the watermark or does not exist. */
  lemma {:induction false} WalkEndsAtWatermarkOrRoot(wm: string, cur: string, api: GitHubApi, n: nat, fuel: nat)
    requires Walk(wm, cur, api, n, fuel).finished
    ensures var rs := Walk(wm, cur, api, n, fuel).requests;
      (rs == [] ==> cur == wm) &&
      (rs != [] ==> Next(api, rs[|rs| - 1], n + |rs| - 1) == None ||
                    Next(api, rs[|rs| - 1], n + |rs| - 1) == Some(wm))
    decreases fuel
  {
    if cur != wm && fuel > 0 {
      match api.info(cur, n)
      case InfoFailed =>
        WalkEndsAtWatermarkOrRoot(wm, cur, api, n + 1, fuel - 1);
      case InfoOk(_, _, None) =>
      case InfoOk(_, _, Some(p)) =>
        var w := Walk(wm, p, api, n + 1, fuel - 1);
        WalkEndsAtWatermarkOrRoot(wm, p, api, n + 1, fuel - 1);
        if w.requests == [] {
          assert p == wm;
        }
    }
  }

  /** The records are exactly those of the calls that found a parent and a patch, in the
      reverse of the order they were made. */
  lemma {:induction false} WalkPatchesAreKeptReversed(wm: string, cur: string, api: GitHubApi, n: nat, fuel: nat)
    ensures var w := Walk(wm, cur, api, n, fuel); w.patches == Reversed(KeptAll(api, w.requests, n))
    decreases fuel
  {
    if cur != wm && fuel > 0 {
      match api.info(cur, n)
      case InfoFailed =>
        var w := Walk(wm, cur, api, n + 1, fuel - 1);
        WalkPatchesAreKeptReversed(wm, cur, api, n + 1, fuel - 1);
        assert ([cur] + w.requests)[1..] == w.requests;
        assert Kept(api, cur, n) == [];
        assert KeptAll(api, [cur] + w.requests, n) == Kept(api, cur, n) + KeptAll(api, w.requests, n + 1);
        assert Kept(api, cur, n) + KeptAll(api, w.requests, n + 1) == KeptAll(api, w.requests, n + 1);
      case InfoOk(_, _, None) =>
        assert [cur][1..] == [];
        assert Kept(api, cur, n) == [];
      case InfoOk(_, _, Some(p)) =>
        var w := Walk(wm, p, api, n + 1, fuel - 1);
        WalkPatchesAreKeptReversed(wm, p, api, n + 1, fuel - 1);
        assert ([cur] + w.requests)[1..] == w.requests;
        assert KeptAll(api, [cur] + w.requests, n) == Kept(api, cur, n) + KeptAll(api, w.requests, n + 1);
        ReversedConcat(Kept(api, cur, n), KeptAll(api, w.requests, n + 1));
    }
  }

  /** Record `p` comes from the `k`-th call, which asked about `c`: the call found `c` with
      a parent, and the patch fetched in the same iteration is `p`'s content. */
  predicate RecordedAt(api: GitHubApi, c: string, k: nat, p: Patch) {
    api.info(c, k).InfoOk? && api.info(c, k).parent.Some? &&
    p == Patch(c, api.info(c, k).message, api.info(c, k).time, p.patchContent) &&
    api.patch(c, k) == Some(p.patchContent)
  }

  /** Every record in `ps` is of a commit other than the watermark and comes from one of
      the calls `n`, `n + 1`, ... about the commits `rs`. */
  predicate Traced(api: GitHubApi, wm: string, rs: seq<string>, n: nat, ps: seq<Patch>) {
    forall p :: p in ps ==>
      (p.commitId != wm && exists k :: 0 <= k < |rs| && RecordedAt(api, rs[k], n + k, p))
  }

  /** Every record comes from a request other than the watermark, one that found a parent
      and whose patch was fetched: a root commit and the watermark are never included. */
  lemma {:induction false} WalkRecordsAreKept(wm: string, cur: string, api: GitHubApi, n: nat, fuel: nat)
    ensures var w := Walk(wm, cur, api, n, fuel); Traced(api, wm, w.requests, n, w.patches)
    decreases fuel
  {
    if cur != wm && fuel > 0 {
      match api.info(cur, n)
      case InfoFailed =>
        var v := Walk(wm, cur, api, n + 1, fuel - 1);
        assert Walk(wm, cur, api, n, fuel) == Walked(v.patches, [cur] + v.requests, v.finished);
        WalkRecordsAreKept(wm, cur, api, n + 1, fuel - 1);
        RecordsShift(api, wm, cur, n, v.requests, v.patches, []);
        assert v.patches + [] == v.patches;
      case InfoOk(_, _, None) =>
      case InfoOk(_, _, Some(q)) =>
        var v := Walk(wm, q, api, n + 1, fuel - 1);
        assert Walk(wm, cur, api, n, fuel) == Walked(v.patches + Kept(api, cur, n), [cur] + v.requests, v.finished);
        WalkRecordsAreKept(wm, q, api, n + 1, fuel - 1);
        RecordsShift(api, wm, cur, n, v.requests, v.patches, Kept(api, cur, n));
    }
  }

  /** Prefixing the `n`-th call to a walk that started at call `n + 1` keeps every record
      traceable to its call. */
  lemma RecordsShift(api: GitHubApi, wm: string, cur: string, n: nat, rest: seq<string>,
                     patches: seq<Patch>, kept: seq<Patch>)
    requires cur != wm
    requires kept == [] || kept == Kept(api, cur, n)
    requires Traced(api, wm, rest, n + 1, patches)
    ensures Traced(api, wm, [cur] + rest, n, patches + kept)
  {
    var rs := [cur] + rest;
    forall p | p in patches + kept
      ensures p.commitId != wm && exists k :: 0 <= k < |rs| && RecordedAt(api, rs[k], n + k, p)
    {
      if p in patches {
        var k :| 0 <= k < |rest| && RecordedAt(api, rest[k], n + 1 + k, p);
        assert rs[k + 1] == rest[k] && n + (k + 1) == n + 1 + k;
        assert RecordedAt(api, rs[k + 1], n + (k + 1), p);
      } else {
        assert p in Kept(api, cur, n);
        assert rs[0] == cur;
        assert RecordedAt(api, rs[0], n + 0, p);
      }
    }
  }

  lemma {:induction false} ReversedConcat<T>(a: seq<T>, b: seq<T>)
    ensures Reversed(a + b) == Reversed(b) + Reversed(a)
  {
    if a == [] {
      assert a + b == b;
    } else {
      assert (a + b)[1..] == a[1..] + b;
      ReversedConcat(a[1..], b);
    }
  }

  /** A commit whose reads keep failing is asked about at every step: the walk spends all
      its steps on that commit, records nothing and never ends. */
  lemma {:induction false} FailingCommitIsAskedForever(wm: string, cur: string, api: GitHubApi, n: nat, fuel: nat)
    requires cur != wm
    requires forall k :: n <= k < n + fuel ==> api.info(cur, k) == InfoFailed
    ensures Walk(wm, cur, api, n, fuel) == Walked([], Repeated(cur, fuel), false)
    decreases fuel
  {
    if fuel > 0 {
      FailingCommitIsAskedForever(wm, cur, api, n + 1, fuel - 1);
    }
  }

  /** A failed read only delays the walk: after `tries` failed reads of `cur`, a successful
      read that finds a parent continues the walk at that parent, exactly as a walk started
      there at the next call would, with `cur`'s record added. */
  lemma {:induction false} RetryResumesAtParent(wm: string, cur: string, api: GitHubApi, n: nat, tries: nat, fuel: nat)
    requires cur != wm && tries < fuel
    requires forall k :: n <= k < n + tries ==> api.info(cur, k) == InfoFailed
    requires api.info(cur, n + tries).InfoOk? && api.info(cur, n + tries).parent.Some?
    ensures var rest := Walk(wm, api.info(cur, n + tries).parent.value, api, n + tries + 1, fuel - tries - 1);
      Walk(wm, cur, api, n, fuel) ==
        Walked(rest.patches + Kept(api, cur, n + tries), Repeated(cur, tries + 1) + rest.requests, rest.finished)
    decreases tries
  {
    if tries > 0 {
      RetryResumesAtParent(wm, cur, api, n + 1, tries - 1, fuel - 1);
      assert n + 1 + (tries - 1) == n + tries;
      var rest := Walk(wm, api.info(cur, n + tries).parent.value, api, n + tries + 1, fuel - tries - 1);
      assert [cur] + (Repeated(cur, tries) + rest.requests) == Repeated(cur, tries + 1) + rest.requests;
    }
  }

  /** More fuel does not change a walk that has ended: the bound is only a device of the model. */
  lemma {:induction false} WalkFuelMonotone(wm: string, cur: string, api: GitHubApi, n: nat, fuel: nat, more: nat)
    requires fuel <= more && Walk(wm, cur, api, n, fuel).finished
    ensures Walk(wm, cur, api, n, more) == Walk(wm, cur, api, n, fuel)
    decreases fuel
  {
    if cur != wm {
      match api.info(cur, n)
      case InfoFailed =>
        WalkFuelMonotone(wm, cur, api, n + 1, fuel - 1, more - 1);
      case InfoOk(_, _, None) =>
      case InfoOk(_, _, Some(p)) =>
        WalkFuelMonotone(wm, p, api, n + 1, fuel - 1, more - 1);
    }
  }

  /** The result of `get_patch_list`, the commit ids it asked about and the
      `update_tracking` writes it made. */
  function PatchList(track: Track, api: GitHubApi, fuel: nat): (Run<Option<seq<Patch>>>, seq<string>, seq<Track>) {
    if api.latest.None? then (Returns(None), [], [])
    else if track.scmCommit == "" then (Returns(None), [], [WithWatermark(track, api.latest.value)])
    else
      var w := Walk(track.scmCommit, api.latest.value, api, 0, fuel);
      (if w.finished then Returns(Some(w.patches)) else OutOfFuel, w.requests, [])
  }

  /** The tip is the watermark: nothing new, nothing asked, nothing written. */
  lemma UpToDate(track: Track, api: GitHubApi, fuel: nat)
    requires track.scmCommit != "" && api.latest == Some(track.scmCommit)
    ensures PatchList(track, api, fuel) == (Returns(Some([])), [], [])
  {
  }

  /** A three-commit history `c1 <- c2 <- c3` with the watermark at `c1`: `c3` and `c2`
      are asked about, newest first, and their records come out oldest first. */
  lemma ThreeCommits(track: Track, api: GitHubApi, m2: string, t2: string, d2: string, m3: string, t3: string, d3: string)
    requires track.scmCommit == "c1" && api.latest == Some("c3")
    requires api.info("c3", 0) == InfoOk(m3, t3, Some("c2")) && api.patch("c3", 0) == Some(d3)
    requires api.info("c2", 1) == InfoOk(m2, t2, Some("c1")) && api.patch("c2", 1) == Some(d2)
    ensures PatchList(track, api, 2) ==
      (Returns(Some([Patch("c2", m2, t2, d2), Patch("c3", m3, t3, d3)])), ["c3", "c2"], [])
  {
    assert Walk("c1", "c1", api, 2, 0) == Walked([], [], true);
    assert Kept(api, "c2", 1) == [Patch("c2", m2, t2, d2)];
    assert Kept(api, "c3", 0) == [Patch("c3", m3, t3, d3)];
    assert Walk("c1", "c2", api, 1, 1) == Walked([Patch("c2", m2, t2, d2)], ["c2"], true);
    assert Walk("c1", "c3", api, 0, 2) == Walked([Patch("c2", m2, t2, d2), Patch("c3", m3, t3, d3)], ["c3", "c2"], true);
  }

  /** `get_patch_list`. The loop runs for at most `fuel` steps; a walk cut off by the bound
      ends in OutOfFuel. */
  method GetPatchList(track: Track, api: GitHubApi, fuel: nat)
    returns (r: Run<Option<seq<Patch>>>, requests: seq<string>, writes: seq<Track>)
    ensures (r, requests, writes) == PatchList(track, api, fuel)
    ensures api.latest.None? ==> r == Returns(None) && requests == [] && writes == []
    ensures api.latest.Some? && track.scmCommit == "" ==>
      r == Returns(None) && requests == [] && writes == [WithWatermark(track, api.latest.value)]
    ensures track.scmCommit != "" ==> writes == [] && track.scmCommit !in requests
  {
    requests, writes := [], [];
    if api.latest.None? {
      return Returns(None), requests, writes;
    }
    var latestCommit := api.latest.value;
    if track.scmCommit == "" {
      writes := [WithWatermark(track, latestCommit)];
      return Returns(None), requests, writes;
    }
    var wm := track.scmCommit;
    WalkSkipsWatermark(wm, latestCommit, api, 0, fuel);
    var commitList, finished;
    commitList, requests, finished := WalkBack(wm, latestCommit, api, fuel);
    if !finished {
      return OutOfFuel, requests, writes;
    }
    r := Returns(Some(commitList));
  }

  /** The `while` loop of `get_patch_list`, from the tip back to the watermark `wm`. */
  method WalkBack(wm: string, tip: string, api: GitHubApi, fuel: nat)
    returns (commitList: seq<Patch>, requests: seq<string>, finished: bool)
    ensures Walked(commitList, requests, finished) == Walk(wm, tip, api, 0, fuel)
  {
    var latestCommit := tip;
    commitList, requests := [], [];
    var left: nat := fuel;
    ghost var rest := Walk(wm, latestCommit, api, 0, left);
    while wm != latestCommit
      invariant left <= fuel
      invariant rest == Walk(wm, latestCommit, api, |requests|, left)
      invariant Walk(wm, tip, api, 0, fuel) ==
        Walked(rest.patches + commitList, requests + rest.requests, rest.finished)
      decreases left
    {
      if left == 0 {
        assert requests + rest.requests == requests;
        return commitList, requests, false;
      }
      var cur := latestCommit;
      var call := |requests|;
      left := left - 1;
      var result := api.info(cur, call);
      requests := requests + [cur];
      if result.InfoOk? {
        if result.parent.Some? {
          var ret := api.patch(cur, call);
          if ret.Some? {
            commitList := [Patch(cur, result.message, result.time, ret.value)] + commitList;
          }
          latestCommit := result.parent.value;
          rest := Walk(wm, latestCommit, api, |requests|, left);
        } else {
          assert requests + [] == requests;
          assert commitList == [] + commitList;
          return commitList, requests, true;
        }
      } else {
        rest := Walk(wm, latestCommit, api, |requests|, left);
      }
    }
    assert requests + rest.requests == requests;
    assert rest.patches + commitList == commitList;
    finished := true;
  }

  /** `get_scm_patch` is `get_patch_list` itself. */
  method GetScmPatch(track: Track, api: GitHubApi, fuel: nat)
    returns (r: Run<Option<seq<Patch>>>, requests: seq<string>, writes: seq<Track>)
    ensures (r, requests, writes) == PatchList(track, api, fuel)
  {
    r, requests, writes := GetPatchList(track, api, fuel);
  }

  // ---------------------------------------------------------------------------
  // issue_table

  /** The web address of an upstream commit: `'/'.join` of the site, the repository,
      `commit` and the full id. */
  function CommitUrl(scmRepo: string, id: string): string {
    "https://github.com/" + scmRepo + "/commit/" + id
  }

  /** The address names the repository and ends with the full commit id. */
  lemma CommitUrlShape(scmRepo: string, id: string)
    ensures StartsWith(CommitUrl(scmRepo, id), "https://github.com/" + scmRepo + "/")
    ensures EndsWith(CommitUrl(scmRepo, id), "/commit/" + id)
  {
    var url := CommitUrl(scmRepo, id);
    assert url == ("https://github.com/" + scmRepo + "/") + ("commit/" + id);
    assert url == ("https://github.com/" + scmRepo) + ("/commit/" + id);
  }

  function GitHubRow(scmRepo: string, p: Patch): string {
    "| [" + ShortId(p.commitId) + "](" + CommitUrl(scmRepo, p.commitId) + ") | " + p.time + " | " + p.message + " |"
  }

  function GitHubRows(scmRepo: string, ps: seq<Patch>): (rows: seq<string>)
    ensures |rows| == |ps| && forall k :: 0 <= k < |ps| ==> rows[k] == GitHubRow(scmRepo, ps[k])
  {
    if ps == [] then [] else [GitHubRow(scmRepo, ps[0])] + GitHubRows(scmRepo, ps[1..])
  }

  /** Normalising record `i` after the first `i` rows are written adds its row to the table. */
  lemma TableStep(scmRepo: string, ps: seq<Patch>, i: nat, p: Patch)
    requires i < |ps|
    ensures TableText(GitHubRows(scmRepo, ps[i := p][..i + 1])) ==
      TableText(GitHubRows(scmRepo, ps[..i])) + GitHubRow(scmRepo, p) + "\n"
  {
    assert ps[i := p][..i + 1] == ps[..i] + [p];
    assert GitHubRows(scmRepo, ps[..i] + [p]) == GitHubRows(scmRepo, ps[..i]) + [GitHubRow(scmRepo, p)];
    TableTextAppend(GitHubRows(scmRepo, ps[..i]), GitHubRow(scmRepo, p));
  }

  predicate NoNewlines(scmRepo: string, ps: seq<Patch>) {
    '\n' !in scmRepo && forall k :: 0 <= k < |ps| ==> '\n' !in ps[k].commitId && '\n' !in ps[k].time
  }

  /** `issue_table`: overwrites each record's message with its normalised form and returns
      the table with one row per record, in order, each a link labelled with the
      7-character short id to the commit's page. */
  method IssueTable(scmRepo: string, commitList: seq<Patch>) returns (table: string, updated: seq<Patch>)
    ensures |updated| == |commitList|
    ensures forall k :: 0 <= k < |commitList| ==> updated[k] == WithNormalizedMessage(commitList[k])
    ensures table == TableText(GitHubRows(scmRepo, updated))
    ensures forall k :: 0 <= k < |updated| ==>
      StartsWith(GitHubRows(scmRepo, updated)[k], RowLead(scmRepo, commitList[k].commitId))
    ensures NoNewlines(scmRepo, commitList) ==>
      Split(table, '\n') == [HeaderLine, RuleLine] + GitHubRows(scmRepo, updated) + [""]
  {
    table := HeaderLine + "\n" + RuleLine + "\n";
    updated := commitList;
    for i := 0 to |commitList|
      invariant |updated| == |commitList|
      invariant forall k :: 0 <= k < i ==> updated[k] == WithNormalizedMessage(commitList[k])
      invariant forall k :: i <= k < |commitList| ==> updated[k] == commitList[k]
      invariant table == TableText(GitHubRows(scmRepo, updated[..i]))
    {
      var p := WithNormalizedMessage(updated[i]);
      TableStep(scmRepo, updated, i, p);
      updated := updated[i := p];
      table := table + GitHubRow(scmRepo, p) + "\n";
    }
    assert updated[..|commitList|] == updated;
    TableFacts(scmRepo, commitList, updated);
  }

  /** What the finished table shows about the records it was built from. */
  lemma TableFacts(scmRepo: string, commitList: seq<Patch>, updated: seq<Patch>)
    requires |updated| == |commitList|
    requires forall k :: 0 <= k < |commitList| ==> updated[k] == WithNormalizedMessage(commitList[k])
    ensures forall k :: 0 <= k < |updated| ==>
      StartsWith(GitHubRows(scmRepo, updated)[k], RowLead(scmRepo, commitList[k].commitId))
    ensures NoNewlines(scmRepo, commitList) ==>
      Split(TableText(GitHubRows(scmRepo, updated)), '\n') == [HeaderLine, RuleLine] + GitHubRows(scmRepo, updated) + [""]
  {
    GitHubRowsStart(scmRepo, commitList, updated);
    if NoNewlines(scmRepo, commitList) {
      GitHubRowsHaveNoNewline(scmRepo, updated);
      TableLines(GitHubRows(scmRepo, updated));
    }
  }

  lemma GitHubRowsStart(scmRepo: string, commitList: seq<Patch>, updated: seq<Patch>)
    requires |updated| == |commitList|
    requires forall k :: 0 <= k < |commitList| ==> updated[k].commitId == commitList[k].commitId
    ensures forall k :: 0 <= k < |updated| ==>
      StartsWith(GitHubRows(scmRepo, updated)[k], RowLead(scmRepo, commitList[k].commitId))
  {
    forall k | 0 <= k < |updated|
      ensures StartsWith(GitHubRows(scmRepo, updated)[k], RowLead(scmRepo, commitList[k].commitId))
    {
      GitHubRowStart(scmRepo, updated[k]);
    }
  }

  lemma GitHubRowsHaveNoNewline(scmRepo: string, ps: seq<Patch>)
    requires NoNewlines(scmRepo, ps) && forall k :: 0 <= k < |ps| ==> '\n' !in ps[k].message
    ensures forall k :: 0 <= k < |ps| ==> '\n' !in GitHubRows(scmRepo, ps)[k]
  {
    forall k | 0 <= k < |ps|
      ensures '\n' !in GitHubRows(scmRepo, ps)[k]
    {
      GitHubRowNoNewline(scmRepo, ps[k]);
    }
  }

  /** The start of a row: the link labelled with the short id to the commit's page. */
  function RowLead(scmRepo: string, id: string): string {
    "| [" + ShortId(id) + "](" + CommitUrl(scmRepo, id) + ") | "
  }

  lemma GitHubRowStart(scmRepo: string, p: Patch)
    ensures StartsWith(GitHubRow(scmRepo, p), RowLead(scmRepo, p.commitId))
  {
    var pre := RowLead(scmRepo, p.commitId);
    StartsWithAppend(pre, p.time, pre);
    StartsWithAppend(pre + p.time, " | ", pre);
    StartsWithAppend(pre + p.time + " | ", p.message, pre);
    StartsWithAppend(pre + p.time + " | " + p.message, " |", pre);
  }

  lemma GitHubRowNoNewline(scmRepo: string, p: Patch)
    requires '\n' !in scmRepo && '\n' !in p.commitId && '\n' !in p.time && '\n' !in p.message
    ensures '\n' !in GitHubRow(scmRepo, p)
  {
    assert StartsWith(p.commitId, ShortId(p.commitId));
    assert '\n' !in ShortId(p.commitId);
  }
}
