/** The updater's decisions: which commit may be installed, and which old releases go. */
module Releases {
  import opened Prelude

  type Sha = string

  datatype CiRun = CiRun(headSha: string, headBranch: string, event: string, status: string, conclusion: string,
                         path: string)

  datatype Decision = NoChange | Defer | Install

  datatype Entry = Entry(sha: Sha, modifiedAt: int)

  const WORKFLOW_PATH := ".github/workflows/ci.yml"

  predicate IsSha(s: string) {
    |s| == 40 && forall c :: c in s ==> '0' <= c <= '9' || 'a' <= c <= 'f'
  }

  /** A completed, successful run of the CI workflow for a push of exactly this commit to the branch. */
  predicate Qualifies(run: CiRun, sha: Sha, branch: string) {
    && run.headSha == sha && run.headBranch == branch && run.event == "push"
    && run.status == "completed" && run.conclusion == "success"
    && (run.path == WORKFLOW_PATH || run.path == WORKFLOW_PATH + "@" + branch)
  }

  predicate HasQualifyingRun(runs: seq<CiRun>, sha: Sha, branch: string) {
    exists i :: 0 <= i < |runs| && Qualifies(runs[i], sha, branch)
  }

  /** `has_successful_ci_run`; an Err is the source's ValueError. */
  method HasSuccessfulCiRun(runs: Option<seq<CiRun>>, sha: Sha, branch: string) returns (r: Result<bool, ()>)
    ensures r.Err? <==> !IsSha(sha) || runs.None?
    ensures r.Ok? ==> (r.value <==> HasQualifyingRun(runs.value, sha, branch))
  {
    if !IsSha(sha) || runs.None? {
      return Err(());
    }
    for i := 0 to |runs.value|
      invariant forall j :: 0 <= j < i ==> !Qualifies(runs.value[j], sha, branch)
    {
      if Qualifies(runs.value[i], sha, branch) {
        return Ok(true);
      }
    }
    return Ok(false);
  }

  /** `decide_update`; `head` is None when the branch response is malformed. */
  method DecideUpdate(current: Option<Sha>, head: Option<Sha>, runs: Option<seq<CiRun>>,
                      branch: string) returns (r: Result<Decision, ()>)
    ensures r == Ok(Install) <==> head.Some? && IsSha(head.value) && current != head && runs.Some?
                                  && HasQualifyingRun(runs.value, head.value, branch)
    ensures r == Ok(NoChange) <==> head.Some? && IsSha(head.value) && current == head
    ensures r.Err? <==> head.None? || !IsSha(head.value) || (current != head && runs.None?)
  {
    if head.None? || !IsSha(head.value) {
      return Err(());
    }
    if current == head {
      return Ok(NoChange);
    }
    var successful := HasSuccessfulCiRun(runs, head.value, branch);
    if successful.Err? {
      return Err(());
    }
    return Ok(if successful.value then Install else Defer);
  }

  // ---- Pruning ------------------------------------------------------------------------------

  ghost predicate NewestFirst(entries: seq<Entry>) {
    forall i, j :: 0 <= i < j < |entries| ==> entries[i].modifiedAt >= entries[j].modifiedAt
  }

  /** Insert after every entry that is at least as new, as a stable descending sort does. */
  function Insert(e: Entry, sorted: seq<Entry>): seq<Entry> {
    if sorted == [] then [e]
    else if sorted[0].modifiedAt >= e.modifiedAt then [sorted[0]] + Insert(e, sorted[1..])
    else [e] + sorted
  }

  function Sorted(entries: seq<Entry>): seq<Entry> {
    if entries == [] then [] else Insert(entries[|entries| - 1], Sorted(entries[..|entries| - 1]))
  }

  lemma {:induction false} InsertSorts(e: Entry, sorted: seq<Entry>)
    requires NewestFirst(sorted)
    ensures NewestFirst(Insert(e, sorted)) && multiset(Insert(e, sorted)) == multiset(sorted) + multiset{e}
  {
    if sorted != [] && sorted[0].modifiedAt >= e.modifiedAt {
      InsertSorts(e, sorted[1..]);
      assert sorted == [sorted[0]] + sorted[1..];
      var rest := Insert(e, sorted[1..]);
      forall x | x in rest
        ensures x.modifiedAt <= sorted[0].modifiedAt
      {
        assert x in multiset(rest);
      }
      PrependNewest(sorted[0], rest);
    }
  }

  lemma PrependNewest(first: Entry, rest: seq<Entry>)
    requires NewestFirst(rest) && forall x :: x in rest ==> x.modifiedAt <= first.modifiedAt
    ensures NewestFirst([first] + rest)
  {
  }

  lemma {:induction false} SortedSorts(entries: seq<Entry>)
    ensures NewestFirst(Sorted(entries)) && multiset(Sorted(entries)) == multiset(entries)
  {
    if entries != [] {
      var front, last := entries[..|entries| - 1], entries[|entries| - 1];
      SortedSorts(front);
      InsertSorts(last, Sorted(front));
      assert entries == front + [last];
    }
  }

  function Inactive(entries: seq<Entry>, current: Sha): seq<Entry> {
    Filter(entries, (e: Entry) => e.sha != current)
  }

  /** `releases_to_prune`: everything after the newest `keep - 1` inactive releases. */
  function Doomed(entries: seq<Entry>, current: Sha, keep: nat): seq<Entry>
    requires keep >= 3
  {
    var inactive := Sorted(Inactive(entries, current));
    if |inactive| <= keep - 1 then [] else inactive[keep - 1..]
  }

  function Retained(entries: seq<Entry>, current: Sha, keep: nat): seq<Entry>
    requires keep >= 3
  {
    Take(Sorted(Inactive(entries, current)), keep - 1)
  }

  /**
   The active release is never pruned; of the others the newest `keep - 1` stay, all of them as
   new as anything that goes, and nothing else is lost.
   */
  lemma PruningKeepsTheNewest(entries: seq<Entry>, current: Sha, keep: nat)
    requires keep >= 3
    ensures var doomed, kept := Doomed(entries, current, keep), Retained(entries, current, keep);
            && (forall e :: e in doomed ==> e in entries && e.sha != current)
            && multiset(kept) + multiset(doomed) == multiset(Inactive(entries, current))
            && |kept| <= keep - 1 && (doomed != [] ==> |kept| == keep - 1)
            && forall k, d :: k in kept && d in doomed ==> k.modifiedAt >= d.modifiedAt
  {
    var inactive := Inactive(entries, current);
    SortedSorts(inactive);
    SplitSorted(Sorted(inactive), keep - 1);
    forall e | e in Doomed(entries, current, keep)
      ensures e in entries && e.sha != current
    {
      assert e in multiset(Sorted(inactive)) && e in multiset(inactive);
    }
  }

  lemma SplitSorted(sorted: seq<Entry>, n: nat)
    requires NewestFirst(sorted)
    ensures var doomed := if |sorted| <= n then [] else sorted[n..];
            && multiset(Take(sorted, n)) + multiset(doomed) == multiset(sorted)
            && (forall e :: e in doomed ==> e in sorted)
            && forall k, d :: k in Take(sorted, n) && d in doomed ==> k.modifiedAt >= d.modifiedAt
  {
    if |sorted| > n {
      assert sorted == sorted[..n] + sorted[n..];
    }
  }
}
