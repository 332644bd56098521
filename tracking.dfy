/** The records the synchronisation cycle passes around: a tracking row, a commit's
    patch record, the issue-table text shared by both upstream backends, and the
    tracking store, keyed by (repo, branch), that the cycle reads and updates. */
module Tracking {
  import opened Text

  /** One tracking row: the downstream Gitee repository and branch, the upstream
      backend kind (`version_control`), upstream repository and branch, and the
      watermark `scm_commit` (the empty string when unset; the column's None reads the same). */
  datatype Track = Track(
    versionControl: string,
    repo: string,
    branch: string,
    enabled: bool,
    scmCommit: string,
    scmBranch: string,
    scmRepo: string)

  datatype Key = Key(repo: string, branch: string)

  function KeyOf(t: Track): Key {
    Key(t.repo, t.branch)
  }

  /** The `data` dict that `update_tracking` receives: every field copied from the
      tracking row except `scm_commit`, which becomes `commit`. */
  function WithWatermark(t: Track, commit: string): (u: Track)
    ensures u.scmCommit == commit && KeyOf(u) == KeyOf(t)
    ensures u.versionControl == t.versionControl && u.enabled == t.enabled
    ensures u.scmBranch == t.scmBranch && u.scmRepo == t.scmRepo
  {
    t.(scmCommit := commit)
  }

  /** The dict a backend builds for one upstream commit. */
  datatype Patch = Patch(commitId: string, message: string, time: string, patchContent: string)

  /** One row of the issue log. */
  datatype IssueRow = IssueRow(issue: string, repo: string, branch: string)

  // ---------------------------------------------------------------------------
  // The commit message as it appears in the issue table: `\r` dropped, `\n` as `<br>`.

  function NormalizeMessage(m: string): (r: string)
    ensures '\r' !in r && '\n' !in r
  {
    var noCr := Replace(m, "\r", "");
    ReplaceRemovesChar(m, "\r", "");
    var r := Replace(noCr, "\n", "<br>");
    ReplaceRemovesChar(noCr, "\n", "<br>");
    ReplaceKeepsAbsent(noCr, "\n", "<br>", '\r');
    r
  }

  /** Normalising twice is normalising once, so overwriting the messages in place
      before the issue table normalises them again changes nothing. */
  lemma NormalizeIdempotent(m: string)
    ensures NormalizeMessage(NormalizeMessage(m)) == NormalizeMessage(m)
  {
    var x := NormalizeMessage(m);
    ReplaceAbsentIsIdentity(x, "\r", "");
    ReplaceAbsentIsIdentity(x, "\n", "<br>");
  }

  function WithNormalizedMessage(p: Patch): Patch {
    p.(message := NormalizeMessage(p.message))
  }

  /** Every record with its message normalised, in order. */
  function NormalizedAll(ps: seq<Patch>): (r: seq<Patch>)
    ensures |r| == |ps|
    ensures forall k :: 0 <= k < |ps| ==> r[k] == WithNormalizedMessage(ps[k])
  {
    if ps == [] then [] else [WithNormalizedMessage(ps[0])] + NormalizedAll(ps[1..])
  }

  /** Normalising every message a second time changes nothing: the messages the upload
      loop overwrote reach the issue table unchanged by its own normalisation. */
  lemma NormalizedAllIdempotent(ps: seq<Patch>)
    ensures NormalizedAll(NormalizedAll(ps)) == NormalizedAll(ps)
  {
    var once := NormalizedAll(ps);
    forall k | 0 <= k < |ps|
      ensures NormalizedAll(once)[k] == once[k]
    {
      NormalizeIdempotent(ps[k].message);
    }
  }

  // ---------------------------------------------------------------------------
  // The markdown table both backends' `issue_table` build.

  const HeaderLine := "| Commit | Datetime | Message |"
  const RuleLine := "| ------ | ------ | ------ |"

  /** Each row followed by a newline. */
  function Lines(rows: seq<string>): string {
    if rows == [] then "" else rows[0] + "\n" + Lines(rows[1..])
  }

  lemma {:induction false} LinesAppend(rows: seq<string>, row: string)
    ensures Lines(rows + [row]) == Lines(rows) + row + "\n"
  {
    if rows != [] {
      assert (rows + [row])[1..] == rows[1..] + [row];
      LinesAppend(rows[1..], row);
    } else {
      assert [row][1..] == [];
    }
  }

  function TableText(rows: seq<string>): string {
    HeaderLine + "\n" + RuleLine + "\n" + Lines(rows)
  }

  /** Adding a row adds one line at the end of the table. */
  lemma TableTextAppend(rows: seq<string>, row: string)
    ensures TableText(rows + [row]) == TableText(rows) + row + "\n"
  {
    LinesAppend(rows, row);
  }

  lemma {:induction false} LinesIsJoin(rows: seq<string>)
    ensures Join(rows + [""], '\n') == Lines(rows)
  {
    if rows != [] {
      assert (rows + [""])[1..] == rows[1..] + [""];
      LinesIsJoin(rows[1..]);
    }
  }

  /** Read line by line, the table is the two header lines, then exactly one line per
      row in order, then the empty text after the final newline. */
  lemma TableLines(rows: seq<string>)
    requires forall i :: 0 <= i < |rows| ==> '\n' !in rows[i]
    ensures Split(TableText(rows), '\n') == [HeaderLine, RuleLine] + rows + [""]
  {
    var parts := [HeaderLine, RuleLine] + rows + [""];
    LinesIsJoin(rows);
    assert parts[1..] == [RuleLine] + rows + [""];
    assert parts[1..][1..] == rows + [""];
    assert Join(parts, '\n') == TableText(rows);
    SplitJoin(parts, '\n');
  }

  // ---------------------------------------------------------------------------
  // The tracking table and the issue log.

  /** Applying the `update_tracking` writes in order: each write replaces the row with the
      same (repo, branch); a write for a key with no row changes nothing. */
  function Applied(tracks: map<Key, Track>, writes: seq<Track>): map<Key, Track> {
    if writes == [] then tracks
    else
      var w := writes[|writes| - 1];
      var before := Applied(tracks, writes[..|writes| - 1]);
      if KeyOf(w) in before then before[KeyOf(w) := w] else before
  }

  /** Every row is filed under its own (repo, branch). */
  predicate Keyed(tracks: map<Key, Track>) {
    forall k :: k in tracks ==> KeyOf(tracks[k]) == k
  }

  /** The writes keep every row under its own key and never add or remove a key. */
  lemma {:induction false} AppliedKeepsKeys(tracks: map<Key, Track>, writes: seq<Track>)
    requires Keyed(tracks)
    ensures Keyed(Applied(tracks, writes))
    ensures Applied(tracks, writes).Keys == tracks.Keys
  {
    if writes != [] {
      AppliedKeepsKeys(tracks, writes[..|writes| - 1]);
    }
  }

  /** Applying two runs of writes is applying their concatenation. */
  lemma {:induction false} AppliedConcat(tracks: map<Key, Track>, a: seq<Track>, b: seq<Track>)
    ensures Applied(Applied(tracks, a), b) == Applied(tracks, a + b)
    decreases |b|
  {
    if b == [] {
      assert a + b == a;
    } else {
      assert (a + b)[..|a + b| - 1] == a + b[..|b| - 1];
      AppliedConcat(tracks, a, b[..|b| - 1]);
    }
  }

  class TrackingStore {
    var tracks: map<Key, Track>
    var issues: seq<IssueRow>

    ghost predicate Valid()
      reads this
    {
      Keyed(tracks)
    }

    constructor (rows: map<Key, Track>)
      requires forall k :: k in rows ==> KeyOf(rows[k]) == k
      ensures Valid() && tracks == rows && issues == []
    {
      tracks := rows;
      issues := [];
    }

    method UpdateTracking(data: Track)
      requires Valid()
      modifies this
      ensures Valid() && issues == old(issues)
      ensures tracks == Applied(old(tracks), [data])
    {
      if KeyOf(data) in tracks {
        tracks := tracks[KeyOf(data) := data];
      }
    }

    method UpdateAll(writes: seq<Track>)
      requires Valid()
      modifies this
      ensures Valid() && issues == old(issues)
      ensures tracks == Applied(old(tracks), writes)
    {
      for i := 0 to |writes|
        invariant Valid() && issues == old(issues)
        invariant tracks == Applied(old(tracks), writes[..i])
      {
        assert writes[..i + 1][..i] == writes[..i];
        UpdateTracking(writes[i]);
      }
      assert writes[..|writes|] == writes;
    }

    method CreateIssue(row: IssueRow)
      modifies this
      ensures tracks == old(tracks) && issues == old(issues) + [row]
    {
      issues := issues + [row];
    }
  }
}
