/** The `git` backend: a local mirror of the upstream repository, named after its URL,
    is fetched; the commits after the watermark are read from the mirror's history and
    each is paired with its predecessor to produce one diff per commit.

    The git toolchain is an oracle (`GitEnv`): what each fetch reports, the tip of the
    tracked branch, the mirror's commit history and per-commit message/time and diffs. */
module GitUpstream {
  import opened Wrappers
  import opened Text
  import opened Tracking

  // ---------------------------------------------------------------------------
  // url_to_dir

  /** The characters `rstrip(".git")` strips: the argument is a character set. */
  const StripChars: set<char> := {'.', 'g', 'i', 't'}

  /** The three replacements `"://"`, `":"` and `"/"` by `"_"`. */
  function Sanitize(path: string): (r: string)
    ensures '/' !in r && ':' !in r
    ensures |path| > 0 ==> |r| > 0 && (r[|r| - 1] == path[|path| - 1] || r[|r| - 1] == '_')
    ensures |path| == 0 ==> r == []
  {
    var a := Replace(path, "://", "_");
    var b := Replace(a, ":", "_");
    var c := Replace(b, "/", "_");
    ReplaceRemovesChar(a, ":", "_");
    ReplaceKeepsAbsent(b, "/", "_", ':');
    ReplaceRemovesChar(b, "/", "_");
    SanitizeLast(path);
    c
  }

  lemma SanitizeLast(path: string)
    ensures var c := Replace(Replace(Replace(path, "://", "_"), ":", "_"), "/", "_");
      |path| > 0 ==> |c| > 0 && (c[|c| - 1] == path[|path| - 1] || c[|c| - 1] == '_')
  {
    if |path| > 0 {
      var a := Replace(path, "://", "_");
      var b := Replace(a, ":", "_");
      ReplaceLast(path, "://", "_");
      ReplaceLast(a, ":", "_");
      ReplaceLast(b, "/", "_");
    }
  }

  /** `url_to_dir` as written: the mirror directory name of an upstream URL. It holds no
      `/` and no `:`, and it never ends in `.`, `g`, `i` or `t`, because `rstrip` removes
      every trailing character of that set, not the suffix `.git`. */
  function UrlToDir(url: string): (dir: string)
    ensures '/' !in dir && ':' !in dir
    ensures dir == [] || dir[|dir| - 1] !in StripChars
    ensures dir == [] <==> forall i :: 0 <= i < |url| ==> url[i] in StripChars
  {
    var stripped := RStrip(url, StripChars);
    assert stripped == [] <==> forall i :: 0 <= i < |url| ==> url[i] in StripChars by {
      if stripped != [] {
        assert url[|stripped| - 1] == stripped[|stripped| - 1];
      }
    }
    Sanitize(stripped)
  }

  /** Under `url_to_dir`, appending any run of `.`, `g`, `i`, `t` to a URL does not change
      its mirror directory, so distinct upstream repositories share one mirror. */
  lemma UrlToDirIgnoresStrippableTail(url: string, tail: string)
    requires forall i :: 0 <= i < |tail| ==> tail[i] in StripChars
    ensures UrlToDir(url + tail) == UrlToDir(url)
  {
    RStripIgnoresStrippable(url, tail, StripChars);
  }

  /** An instance: `a/art.git` and `a/ar` share a mirror directory. */
  lemma UrlToDirCollides()
    ensures UrlToDir("a/art.git") == UrlToDir("a/ar")
  {
    assert "a/art.git" == "a/ar" + "t.git";
    UrlToDirIgnoresStrippableTail("a/ar", "t.git");
  }

  /** The evidently intended first step: remove one trailing `.git`, nothing else. */
  function StripGitSuffix(url: string): (p: string)
    ensures EndsWith(url, ".git") ==> p + ".git" == url
    ensures !EndsWith(url, ".git") ==> p == url
  {
    if EndsWith(url, ".git") then url[..|url| - 4] else url
  }

  /** The mirror directory name with the `.git` suffix removed as intended. */
  function MirrorDirName(url: string): (dir: string)
    ensures '/' !in dir && ':' !in dir
  {
    Sanitize(StripGitSuffix(url))
  }

  /** With the intended stripping, a URL with and without its `.git` suffix name the same
      mirror. */
  lemma MirrorDirNameSuffixOptional(url: string)
    requires !EndsWith(url, ".git")
    ensures MirrorDirName(url + ".git") == MirrorDirName(url)
  {
    assert EndsWith(url + ".git", ".git") by {
      assert (url + ".git")[|url + ".git"| - 4..] == ".git";
    }
    assert (url + ".git")[..|url + ".git"| - 4] == url;
  }

  /** The two repositories of UrlToDirCollides get distinct mirrors. */
  lemma MirrorDirNameSeparates()
    ensures MirrorDirName("a/art.git") != MirrorDirName("a/ar")
  {
    assert StripGitSuffix("a/art.git") == "a/art";
    assert !EndsWith("a/ar", ".git");
    SanitizeWithoutColonKeepsLength("a/art");
    SanitizeWithoutColonKeepsLength("a/ar");
  }

  lemma SanitizeWithoutColonKeepsLength(path: string)
    requires ':' !in path
    ensures |Sanitize(path)| == |path|
  {
    ReplaceAbsentIsIdentity(path, "://", "_");
    ReplaceAbsentIsIdentity(path, ":", "_");
    ReplaceCharKeepsLength(path, "/", "_");
  }

  // ---------------------------------------------------------------------------
  // The git toolchain as an oracle.

  /** What one `git_fetch` call meets: whether the mirror directory exists and, if it
      does, whether `remote().fetch()` succeeds. */
  datatype FetchCall = FetchCall(mirrorExists: bool, remoteFetchOk: bool)

  /** `git_fetch`: a missing mirror is cloned and the clone's own result is ignored, so
      the call fails only when an existing mirror fails to fetch. */
  function GitFetch(f: FetchCall): (ok: bool)
    ensures !f.mirrorExists ==> ok
    ensures f.mirrorExists ==> ok == f.remoteFetchOk
  {
    if f.mirrorExists then f.remoteFetchOk else true
  }

  datatype CommitInfo = CommitInfo(message: string, time: string)

  datatype GitEnv = GitEnv(
    firstFetch: FetchCall,                  // the fetch in get_scm_patch
    secondFetch: FetchCall,                 // the fetch in get_commit_list
    tip: Option<string>,                    // git_latest_sha: None for a GitError
    history: seq<string>,                   // repo.iter_commits(), newest first
    info: string -> Option<CommitInfo>,     // get_commit_info: None for a GitError
    diff: (string, string) -> Option<string>)  // git_patch: None for a GitError

  // ---------------------------------------------------------------------------
  // get_commit_list

  /** The history up to, not including, the first occurrence of `x`. */
  function TakeUntil(h: seq<string>, x: string): (r: seq<string>)
    ensures |r| <= |h| && r == h[..|r|]
    ensures x !in r
    ensures |r| == |h| || h[|r|] == x
  {
    if h == [] || h[0] == x then [] else [h[0]] + TakeUntil(h[1..], x)
  }

  /** The three properties of TakeUntil determine it. */
  lemma {:induction false} TakeUntilUnique(h: seq<string>, x: string, n: nat)
    requires n <= |h| && x !in h[..n] && (n == |h| || h[n] == x)
    ensures TakeUntil(h, x) == h[..n]
  {
    if n > 0 {
      assert h[0] == h[..n][0];
      assert h[1..][..n - 1] == h[1..n];
      assert h[1..n] == h[..n][1..];
      TakeUntilUnique(h[1..], x, n - 1);
    }
  }

  /** The list `get_commit_list` returns: empty when the fetch failed, otherwise the
      history newest first up to the watermark, followed by the watermark itself. */
  function CommitList(fetched: bool, history: seq<string>, start: string): (cl: seq<string>)
    ensures !fetched ==> cl == []
    ensures fetched ==> |cl| > 0 && cl[|cl| - 1] == start && |cl| - 1 <= |history|
    ensures fetched ==> start !in cl[..|cl| - 1] && cl[..|cl| - 1] == history[..|cl| - 1]
    ensures fetched ==> |cl| - 1 == |history| || history[|cl| - 1] == start
  {
    if fetched then
      var prefix := TakeUntil(history, start);
      assert (prefix + [start])[..|prefix|] == prefix;
      prefix + [start]
    else []
  }

  method GetCommitList(fetched: bool, history: seq<string>, start: string) returns (commitList: seq<string>)
    ensures commitList == CommitList(fetched, history, start)
  {
    commitList := [];
    if fetched {
      var i := 0;
      while i < |history|
        invariant 0 <= i <= |history|
        invariant commitList == history[..i]
        invariant start !in history[..i]
      {
        if history[i] != start {
          commitList := commitList + [history[i]];
          assert history[..i + 1] == history[..i] + [history[i]];
        } else {
          break;
        }
        i := i + 1;
      }
      TakeUntilUnique(history, start, i);
      commitList := commitList + [start];
    }
  }

  // ---------------------------------------------------------------------------
  // get_patch_list

  /** A value the code accepts: `if patch_ret:` rejects a GitError and an empty diff alike,
      and `if not latest_commit:` a GitError and an empty id. */
  predicate Truthy(d: Option<string>) {
    d.Some? && d.value != ""
  }

  predicate PairOk(env: GitEnv, newer: string, older: string) {
    env.info(newer).Some? && Truthy(env.diff(newer, older))
  }

  /** The index of the first pair of consecutive ids whose commit info or diff fails,
      or the number of pairs when none does. */
  function FirstBadPair(cl: seq<string>, env: GitEnv): (k: nat)
    ensures |cl| > 0 ==> k <= |cl| - 1
    ensures |cl| == 0 ==> k == 0
    ensures forall j :: 0 <= j < k ==> PairOk(env, cl[j], cl[j + 1])
    ensures k < |cl| - 1 ==> !PairOk(env, cl[k], cl[k + 1])
    decreases |cl|
  {
    if |cl| <= 1 then 0
    else if !PairOk(env, cl[0], cl[1]) then 0
    else 1 + FirstBadPair(cl[1..], env)
  }

  /** The record for `cl[k]`: its message and time, and the diff from `cl[k]` to `cl[k+1]`. */
  function PatchAt(cl: seq<string>, k: nat, env: GitEnv): Patch
    requires k < |cl| - 1 && PairOk(env, cl[k], cl[k + 1])
  {
    var ci := env.info(cl[k]).value;
    Patch(cl[k], ci.message, ci.time, env.diff(cl[k], cl[k + 1]).value)
  }

  /** The records of the first `n` pairs, in commit_list order. */
  function PairPatches(cl: seq<string>, env: GitEnv, n: nat): (ps: seq<Patch>)
    requires n <= |cl| - 1
    requires forall j :: 0 <= j < n ==> PairOk(env, cl[j], cl[j + 1])
    ensures |ps| == n && forall j :: 0 <= j < n ==> ps[j] == PatchAt(cl, j, env)
  {
    if n == 0 then [] else PairPatches(cl, env, n - 1) + [PatchAt(cl, n - 1, env)]
  }

  /** What the pairing loop ends with: every pair succeeded and the list is reversed to
      oldest first; or the first failing pair had no commit info, whose unpacking raises
      TypeError; or its diff was falsy, and the result is None. */
  function PairingOutcome(cl: seq<string>, env: GitEnv): Run<Option<seq<Patch>>>
    requires |cl| > 0
  {
    var k := FirstBadPair(cl, env);
    if k == |cl| - 1 then Returns(Some(Reversed(PairPatches(cl, env, k))))
    else if env.info(cl[k]).None? then Raises(TypeError)
    else Returns(None)
  }

  /** The result of `get_patch_list` and the `update_tracking` writes it makes. */
  function PatchList(track: Track, env: GitEnv): (Run<Option<seq<Patch>>>, seq<Track>) {
    if !Truthy(env.tip) then (Returns(None), [])
    else if track.scmCommit == "" then (Returns(None), [WithWatermark(track, env.tip.value)])
    else
      var cl := CommitList(GitFetch(env.secondFetch), env.history, track.scmCommit);
      if cl == [] then (Returns(None), []) else (PairingOutcome(cl, env), [])
  }

  /** A full batch has one record per id before the watermark, oldest first, and the record
      for `cl[k]` carries the diff between `cl[k]` and `cl[k+1]`. */
  lemma {:induction false} PairingShape(cl: seq<string>, env: GitEnv)
    requires |cl| > 0
    ensures PairingOutcome(cl, env).Returns? && PairingOutcome(cl, env).value.Some? <==>
      forall k :: 0 <= k < |cl| - 1 ==> PairOk(env, cl[k], cl[k + 1])
    ensures PairingOutcome(cl, env) == Returns(Some([])) <==> |cl| == 1
    ensures PairingOutcome(cl, env).Returns? && PairingOutcome(cl, env).value.Some? ==>
      var ps := PairingOutcome(cl, env).value.value;
      |ps| == |cl| - 1 &&
      forall k :: 0 <= k < |cl| - 1 ==>
        env.info(cl[k]).Some? && env.diff(cl[k], cl[k + 1]).Some? &&
        ps[|cl| - 2 - k] == Patch(cl[k], env.info(cl[k]).value.message, env.info(cl[k]).value.time,
                                  env.diff(cl[k], cl[k + 1]).value)
  {
    var k := FirstBadPair(cl, env);
    if k == |cl| - 1 {
      var ps := PairPatches(cl, env, k);
      assert PairingOutcome(cl, env) == Returns(Some(Reversed(ps)));
      forall j | 0 <= j < |cl| - 1
        ensures env.info(cl[j]).Some? && env.diff(cl[j], cl[j + 1]).Some?
        ensures Reversed(ps)[|cl| - 2 - j] == Patch(cl[j], env.info(cl[j]).value.message,
          env.info(cl[j]).value.time, env.diff(cl[j], cl[j + 1]).value)
      {
        assert PairOk(env, cl[j], cl[j + 1]);
        ReversedAt(ps, |cl| - 2 - j);
        assert ps[j] == PatchAt(cl, j, env);
      }
    }
  }

  method GetPatchList(track: Track, env: GitEnv) returns (r: Run<Option<seq<Patch>>>, writes: seq<Track>)
    ensures (r, writes) == PatchList(track, env)
    ensures !Truthy(env.tip) ==> r == Returns(None) && writes == []
    ensures Truthy(env.tip) && track.scmCommit == "" ==>
      r == Returns(None) && writes == [WithWatermark(track, env.tip.value)]
    ensures track.scmCommit != "" ==> writes == []
    ensures Truthy(env.tip) && track.scmCommit != "" && !GitFetch(env.secondFetch) ==> r == Returns(None)
  {
    writes := [];
    var latestCommit := env.tip;
    if !Truthy(latestCommit) {
      return Returns(None), writes;
    }
    if track.scmCommit == "" {
      writes := [WithWatermark(track, latestCommit.value)];
      return Returns(None), writes;
    }
    var commitList := GetCommitList(GitFetch(env.secondFetch), env.history, track.scmCommit);
    if commitList == [] {
      return Returns(None), writes;
    }
    var patchList: seq<Patch> := [];
    for i := 0 to |commitList| - 1
      invariant i <= FirstBadPair(commitList, env)
      invariant patchList == PairPatches(commitList, env, i)
    {
      var info := env.info(commitList[i]);
      if info.None? {
        assert !PairOk(env, commitList[i], commitList[i + 1]);
        assert FirstBadPair(commitList, env) == i;
        return Raises(TypeError), writes;
      }
      var patchRet := env.diff(commitList[i], commitList[i + 1]);
      if !Truthy(patchRet) {
        assert !PairOk(env, commitList[i], commitList[i + 1]);
        assert FirstBadPair(commitList, env) == i;
        return Returns(None), writes;
      }
      patchList := patchList + [Patch(commitList[i], info.value.message, info.value.time, patchRet.value)];
    }
    patchList := Reversed(patchList);
    r := Returns(Some(patchList));
  }

  /** The result of `get_scm_patch`: a failed first fetch yields the empty list. */
  function ScmPatch(track: Track, env: GitEnv): (Run<Option<seq<Patch>>>, seq<Track>) {
    if GitFetch(env.firstFetch) then PatchList(track, env) else (Returns(Some([])), [])
  }

  /** `get_scm_patch` is cut short, with the empty list and no write, only when an existing
      mirror fails to fetch: a missing mirror is cloned and the batch is computed as
      `get_patch_list` computes it. */
  lemma ScmPatchFetchGate(track: Track, env: GitEnv)
    ensures !env.firstFetch.mirrorExists ==> ScmPatch(track, env) == PatchList(track, env)
    ensures env.firstFetch.mirrorExists ==>
      ScmPatch(track, env) == if env.firstFetch.remoteFetchOk then PatchList(track, env) else (Returns(Some([])), [])
  {
  }

  method GetScmPatch(track: Track, env: GitEnv) returns (r: Run<Option<seq<Patch>>>, writes: seq<Track>)
    ensures (r, writes) == ScmPatch(track, env)
    ensures !GitFetch(env.firstFetch) ==> r == Returns(Some([])) && writes == []
  {
    r, writes := Returns(Some([])), [];
    if GitFetch(env.firstFetch) {
      r, writes := GetPatchList(track, env);
    }
  }

  // ---------------------------------------------------------------------------
  // issue_table

  function GitRow(p: Patch): string {
    "| " + ShortId(p.commitId) + " | " + p.time + " | " + p.message + " |"
  }

  function GitRows(ps: seq<Patch>): (rows: seq<string>)
    ensures |rows| == |ps| && forall k :: 0 <= k < |ps| ==> rows[k] == GitRow(ps[k])
  {
    if ps == [] then [] else [GitRow(ps[0])] + GitRows(ps[1..])
  }

  predicate NoNewlines(ps: seq<Patch>) {
    forall k :: 0 <= k < |ps| ==> '\n' !in ps[k].commitId && '\n' !in ps[k].time
  }

  /** `issue_table`: overwrites each record's message with its normalised form and returns
      the table with one row per record, in order, each beginning with the 7-character
      short id. */
  method IssueTable(commitList: seq<Patch>) returns (table: string, updated: seq<Patch>)
    ensures |updated| == |commitList|
    ensures forall k :: 0 <= k < |commitList| ==> updated[k] == WithNormalizedMessage(commitList[k])
    ensures table == TableText(GitRows(updated))
    ensures forall k :: 0 <= k < |updated| ==> StartsWith(GitRows(updated)[k], "| " + ShortId(commitList[k].commitId) + " | ")
    ensures NoNewlines(commitList) ==> Split(table, '\n') == [HeaderLine, RuleLine] + GitRows(updated) + [""]
  {
    table := HeaderLine + "\n" + RuleLine + "\n";
    updated := commitList;
    for i := 0 to |commitList|
      invariant |updated| == |commitList|
      invariant forall k :: 0 <= k < i ==> updated[k] == WithNormalizedMessage(commitList[k])
      invariant forall k :: i <= k < |commitList| ==> updated[k] == commitList[k]
      invariant table == TableText(GitRows(updated[..i]))
    {
      var p := WithNormalizedMessage(updated[i]);
      TableStep(updated, i, p);
      updated := updated[i := p];
      table := table + GitRow(p) + "\n";
    }
    assert updated[..|commitList|] == updated;
    GitRowsStartWithShortId(commitList, updated);
    if NoNewlines(commitList) {
      GitRowsHaveNoNewline(updated);
      TableLines(GitRows(updated));
    }
  }

  /** Normalising record `i` after the first `i` rows are written adds its row to the table. */
  lemma TableStep(ps: seq<Patch>, i: nat, p: Patch)
    requires i < |ps|
    ensures TableText(GitRows(ps[i := p][..i + 1])) == TableText(GitRows(ps[..i])) + GitRow(p) + "\n"
  {
    assert ps[i := p][..i + 1] == ps[..i] + [p];
    assert GitRows(ps[..i] + [p]) == GitRows(ps[..i]) + [GitRow(p)];
    TableTextAppend(GitRows(ps[..i]), GitRow(p));
  }

  lemma GitRowsStartWithShortId(commitList: seq<Patch>, updated: seq<Patch>)
    requires |updated| == |commitList|
    requires forall k :: 0 <= k < |commitList| ==> updated[k].commitId == commitList[k].commitId
    ensures forall k :: 0 <= k < |updated| ==> StartsWith(GitRows(updated)[k], "| " + ShortId(commitList[k].commitId) + " | ")
  {
    forall k | 0 <= k < |updated|
      ensures StartsWith(GitRows(updated)[k], "| " + ShortId(commitList[k].commitId) + " | ")
    {
      GitRowStart(updated[k]);
    }
  }

  lemma GitRowStart(p: Patch)
    ensures StartsWith(GitRow(p), "| " + ShortId(p.commitId) + " | ")
  {
    var pre := "| " + ShortId(p.commitId) + " | ";
    StartsWithAppend(pre, p.time, pre);
    StartsWithAppend(pre + p.time, " | ", pre);
    StartsWithAppend(pre + p.time + " | ", p.message, pre);
    StartsWithAppend(pre + p.time + " | " + p.message, " |", pre);
  }

  /** A row holds a newline only if the id, the time or the message does, and the
      message has been normalised. */
  lemma GitRowsHaveNoNewline(ps: seq<Patch>)
    requires NoNewlines(ps) && forall k :: 0 <= k < |ps| ==> '\n' !in ps[k].message
    ensures forall k :: 0 <= k < |ps| ==> '\n' !in GitRows(ps)[k]
  {
    forall k | 0 <= k < |ps|
      ensures '\n' !in GitRows(ps)[k]
    {
      GitRowNoNewline(ps[k]);
    }
  }

  lemma GitRowNoNewline(p: Patch)
    requires '\n' !in p.commitId && '\n' !in p.time && '\n' !in p.message
    ensures '\n' !in GitRow(p)
  {
    assert StartsWith(p.commitId, ShortId(p.commitId));
    assert '\n' !in ShortId(p.commitId);
  }
}
