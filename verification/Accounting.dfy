/** A completed action accounts for each of its targets: executed, or skipped with a stored reason. */
module Accounting {
  import opened Policy
  import opened Revalidation
  import opened Snapshot
  import opened Lifecycle
  import opened Protocol
  import opened Safety
  import Sorting

  /** The executed records and the skips stored from the `n`-th on are together exactly the targets. */
  predicate Settles(f: CaseFile, n: nat) {
    && n <= |f.preview.skipped| && TargetIds(f.preview).Some?
    && multiset(ExecutedIds(f)) + multiset(Ids(f.preview.skipped[n..])) == multiset(TargetIds(f.preview).value)
  }

  ghost predicate AccountedFor(f: CaseFile) {
    f.status == Completed ==> exists n: nat :: Settles(f, n)
  }

  ghost predicate AllAccounted(files: map<nat, CaseFile>) {
    forall a | a in files :: AccountedFor(files[a])
  }

  // ----- the completion

  lemma SkipIds(kind: Kind, skips: seq<Skipped>)
    ensures Ids(SkipRecords(kind, skips)) == SkippedIds(skips)
  {
  }

  lemma CompletedTargets(p: Preview, skips: seq<Skipped>)
    ensures TargetIds(CompletedPreview(p, skips)) == TargetIds(p)
    ensures CompletedPreview(p, skips).skipped[|p.skipped|..] == SkipRecords(p.kind, skips)
  {
  }

  lemma CompletionAccounts(f: CaseFile, user: nat, reason: string, final: Result, now: int, stamp: int,
                           users: seq<User>)
    requires f.approval.Some? && Partitioned(f.preview, final)
    ensures AccountedFor(CompletedFile(f, user, reason, final, now, stamp, users))
  {
    var g := CompletedFile(f, user, reason, final, now, stamp, users);
    CompletedExecutes(f, user, reason, final, now, stamp, users);
    CompletedTargets(f.preview, final.skipped);
    SkipIds(f.preview.kind, final.skipped);
    assert g.preview == CompletedPreview(f.preview, final.skipped);
    assert Settles(g, |f.preview.skipped|);
  }

  // ----- nothing else completes a file

  lemma FileCallCompletesNothing(f: CaseFile, step: Step)
    ensures FileCall(f, step).status == Completed ==> FileCall(f, step) == f
  {
  }

  lemma FailureCompletesNothing(f: CaseFile, user: nat, reason: string, category: string, now: int, stamp: int,
                                users: seq<User>)
    ensures var g := FailedFile(f, user, reason, category, now, stamp, users); g.status == Completed ==> g == f
  {
  }

  // ----- what it means

  /** The executed records are targets, and none of them was skipped as well. */
  predicate OnlyTargets(f: CaseFile, n: nat)
    requires n <= |f.preview.skipped| && TargetIds(f.preview).Some?
  {
    forall id | id in ExecutedIds(f) :: id in TargetIds(f.preview).value && id !in Ids(f.preview.skipped[n..])
  }

  lemma SettledOnce(f: CaseFile, n: nat)
    requires Settles(f, n) && Valid(f.preview)
    ensures Sorting.Distinct(ExecutedIds(f))
    ensures OnlyTargets(f, n)
  {
    TargetsExactly(f.preview);
    Sorting.PartOfDistinct(ExecutedIds(f), Ids(f.preview.skipped[n..]), TargetIds(f.preview).value);
  }
}
