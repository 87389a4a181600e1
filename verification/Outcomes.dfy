/** What the calls achieve: when they succeed, and who is told. */
module Outcomes {
  import opened Options
  import opened Policy
  import opened Revalidation
  import opened Snapshot
  import opened Notices
  import opened Lifecycle

  // ----- submitting and cancelling

  /** A request is entered exactly when its owner, with the permission, submits a live draft with something to do;
      repeating the call on a live pending request succeeds and changes nothing. */
  lemma SubmitExactly(f: CaseFile, user: User, now: int, stamp: int, users: seq<User>)
    requires FileInv(f)
    ensures var r := Submit(f, user, now, stamp, users);
            var mine := RequestAction in user.permissions && f.preview.requester == user.id;
            && (r.code == Done <==>
                  mine && ((f.status == Draft && !Passed(f.previewDeadline, now) && f.preview.recordCount > 0)
                           || (f.status == Pending && !Passed(f.deadline, now))))
            && (r.code == RequestExpired <==>
                  mine && ((f.status == Draft && Passed(f.previewDeadline, now))
                           || (f.status == Pending && Passed(f.deadline, now))))
            && (r.code == Done && f.status == Pending ==> r.file == f)
            && (r.code == Done && f.status == Draft ==> r.file == Submitted(f, user.id, now, stamp, users))
            && (r.code == RequestExpired ==> r.file.status == Expired)
            && (r.code != Done && r.code != RequestExpired ==> r.file == f)
  {
  }

  /** A new request waits with one deadline, a day ahead, on both rows, and exactly the users who could decide now
   *  know. */
  lemma SubmittedWaits(f: CaseFile, user: nat, now: int, stamp: int, users: seq<User>, id: nat)
    requires Shape(f) && f.status == Draft
    ensures var g := Submitted(f, user, now, stamp, users);
            && Open(g) && g.deadline == g.approval.value.deadline == Some(now + 24 * 3600)
            && g.approval.value.decidedBy.None? && g.preview == f.preview
            && ((id, PendingNotice) in Keys(g.notices) <==>
                  exists u | u in users :: u.id == id && DecisionOn(f.preview, u).allowed)
  {
    ApproversExactly(users, f.preview, id);
    KeysOfPending(Approvers(users, f.preview), id);
    assert Submitted(f, user, now, stamp, users).notices == PendingNotices(Approvers(users, f.preview));
  }

  lemma KeysOfPending(ids: seq<nat>, id: nat)
    ensures (id, PendingNotice) in Keys(PendingNotices(ids)) <==> id in ids
  {
    var items := PendingNotices(ids);
    if id in ids {
      var i :| 0 <= i < |ids| && ids[i] == id;
      assert Keys(items)[i] == (id, PendingNotice);
    }
    if (id, PendingNotice) in Keys(items) {
      var i :| 0 <= i < |items| && Keys(items)[i] == (id, PendingNotice);
      assert ids[i] == id;
    }
  }

  /** A request is withdrawn exactly when its owner, with the permission, cancels it while it is pending and live. */
  lemma CancelExactly(f: CaseFile, user: User, reason: string, now: int, stamp: int)
    requires FileInv(f)
    ensures var r := Cancel(f, user, reason, now, stamp);
            var mine := RequestAction in user.permissions && f.preview.requester == user.id;
            && (r.code == Done <==> mine && Open(f) && !Passed(f.deadline, now))
            && (r.code == RequestExpired <==> mine && Open(f) && Passed(f.deadline, now))
            && (r.code == Done ==> r.file.status == Cancelled && r.file.approval.Some?
                                   && r.file.approval.value.status == ApprovalCancelled
                                   && r.file.approval.value.decidedBy == f.approval.value.decidedBy
                                   && r.file.notices == f.notices)
            && (r.code == RequestExpired ==> r.file.status == Expired)
            && (r.code != Done && r.code != RequestExpired ==> r.file == f)
  {
  }

  // ----- who is told

  lemma KeysOfSum(a: seq<Notice>, b: seq<Notice>, key: Key)
    ensures key in Keys(a + b) <==> key in Keys(a) || key in Keys(b)
  {
    assert Keys(a + b) == Keys(a) + Keys(b);
  }

  lemma KeyWitness(items: seq<Notice>, key: Key)
    ensures key in Keys(items) <==> exists n | n in items :: KeyOf(n) == key
  {
    if key in Keys(items) {
      var i :| 0 <= i < |items| && Keys(items)[i] == key;
      assert items[i] in items;
    }
    if exists n | n in items :: KeyOf(n) == key {
      var n :| n in items && KeyOf(n) == key;
      var i :| 0 <= i < |items| && items[i] == n;
      assert Keys(items)[i] == key;
    }
  }

  lemma ActiveKeys(items: seq<Notice>, users: seq<User>, key: Key)
    ensures key in Keys(OnlyActive(items, users)) <==> key in Keys(items) && IsActive(users, key.0)
  {
    OnlyActiveExactly(items, users);
    KeyWitness(items, key);
    KeyWitness(OnlyActive(items, users), key);
  }

  lemma {:induction false} DedupeKeys(items: seq<Notice>, key: Key)
    ensures key in Keys(Dedupe(items)) <==> key in Keys(items)
  {
    DedupeKeeps(items);
    KeyWitness(items, key);
    KeyWitness(Dedupe(items), key);
    if key in Keys(items) {
      var i := LastOf(items, key);
      DedupeExactly(items, i);
    }
  }

  lemma {:induction false} LastOf(items: seq<Notice>, key: Key) returns (i: nat)
    requires key in Keys(items)
    ensures i < |items| && KeyOf(items[i]) == key && forall j | i < j < |items| :: KeyOf(items[j]) != key
  {
    var front := items[..|items| - 1];
    if KeyOf(items[|items| - 1]) == key {
      i := |items| - 1;
    } else {
      assert Keys(items) == Keys(front) + [KeyOf(items[|items| - 1])];
      i := LastOf(front, key);
    }
  }

  lemma {:induction false} WatcherKeys(ids: seq<nat>, requester: nat, actor: nat, id: nat)
    ensures (id, CompletedNotice) in Keys(Watchers(ids, requester, actor)) <==>
            id in ids && id != requester && id != actor
  {
    if ids != [] {
      var front, last := ids[..|ids| - 1], ids[|ids| - 1];
      var more := if last == requester || last == actor then []
        else [Notice(last, CompletedNotice, SensitiveCompleted)];
      assert ids == front + [last];
      assert Watchers(ids, requester, actor) == Watchers(front, requester, actor) + more;
      WatcherKeys(front, requester, actor, id);
      KeysOfSum(Watchers(front, requester, actor), more, (id, CompletedNotice));
      assert (id, CompletedNotice) in Keys(more) <==> id == last && last != requester && last != actor by {
        if more != [] {
          assert Keys(more) == [(last, CompletedNotice)];
        }
      }
    }
  }

  lemma CompletionKeys(p: Preview, actor: nat, override: bool, users: seq<User>, id: nat)
    ensures (id, CompletedNotice) in Keys(CompletionNotices(p, actor, override, users)) <==>
            id == p.requester || id == actor || (override && id in Approvers(users, p))
  {
    var first := [Notice(p.requester, ApprovedNotice, RequestApproved),
                  Notice(p.requester, CompletedNotice, RequestCompleted),
                  Notice(actor, CompletedNotice, ApprovedCompleted)];
    var more := if override then Watchers(Approvers(users, p), p.requester, actor) else [];
    KeysOfSum(first, more, (id, CompletedNotice));
    WatcherKeys(Approvers(users, p), p.requester, actor, id);
    assert Keys(first)[1] == (p.requester, CompletedNotice) && Keys(first)[2] == (actor, CompletedNotice);
  }

  /** Of a completion learn, among the active users, the requester and the approver, and with an override also
      everybody who could have decided. */
  lemma CompletionTells(f: CaseFile, user: nat, reason: string, final: Result, now: int, stamp: int, users: seq<User>,
                        id: nat)
    requires Shape(f) && Open(f)
    ensures var g := CompletedFile(f, user, reason, final, now, stamp, users);
            (id, CompletedNotice) in Keys(g.notices) <==>
              && IsActive(users, id)
              && (id == f.preview.requester || id == user
                  || (final.RequiresOverride() && id in Approvers(users, g.preview)))
  {
    var g, told, events := CompletedRows(f, user, reason, final, now, stamp, users);
    var p := CompletedPreview(f.preview, final.skipped);
    var items := CompletionNotices(p, user, final.RequiresOverride(), users);
    CompletionKeys(p, user, final.RequiresOverride(), users, id);
    DedupeKeys(items, (id, CompletedNotice));
    ActiveKeys(Dedupe(items), users, (id, CompletedNotice));
    KeysOfSum(f.notices, CompletionTold(p, user, final.RequiresOverride(), users), (id, CompletedNotice));
    NotYet(f, (id, CompletedNotice));
  }

  lemma NotYet(f: CaseFile, key: Key)
    requires Shape(f) && Open(f) && key.1 != PendingNotice
    ensures key !in Keys(f.notices)
  {
    KeyWitness(f.notices, key);
  }

  lemma RefusedKeys(f: CaseFile, user: nat, reason: string, now: int, stamp: int, users: seq<User>)
    requires f.approval.Some?
    ensures Keys(Refused(f, user, reason, now, stamp, users).notices)
            == Keys(f.notices) + if IsActive(users, f.preview.requester) then [(f.preview.requester, RejectedNotice)]
                                 else []
  {
    var item := Notice(f.preview.requester, RejectedNotice, RequestRejected);
    assert [item][..0] == [];
    assert OnlyActive([item], users) == if IsActive(users, item.recipient) then [item] else [];
  }

  /** Of a rejection learns exactly the requester, if active. */
  lemma RefusalTells(f: CaseFile, user: nat, reason: string, now: int, stamp: int, users: seq<User>, n: Notice)
    requires Shape(f) && Open(f) && n.kind == RejectedNotice
    ensures n in Refused(f, user, reason, now, stamp, users).notices <==>
            IsActive(users, n.recipient) && n.recipient == f.preview.requester && n.title == RequestRejected
  {
    RefusedKeys(f, user, reason, now, stamp, users);
    NotYet(f, KeyOf(n));
    KeyWitness(f.notices, KeyOf(n));
    OnlyActiveExactly([Notice(f.preview.requester, RejectedNotice, RequestRejected)], users);
  }

  /** Of an escalation learn exactly the users who may now decide; those told before are not told again. */
  lemma EscalationTells(f: CaseFile, user: nat, final: Result, stamp: int, users: seq<User>, id: nat)
    requires Shape(f) && Open(f)
    ensures var g := EscalatedFile(f, user, final, stamp, users);
            (id, PendingNotice) in Keys(g.notices) <==>
              (id, PendingNotice) in Keys(f.notices) ||
              exists u | u in users :: u.id == id && DecisionOn(g.preview, u).allowed
  {
    var g := EscalatedFile(f, user, final, stamp, users);
    var ids := Approvers(users, g.preview);
    ApproversExactly(users, g.preview, id);
    NotToldExactly(ids, f.notices);
    KeysOfPending(NotTold(ids, f.notices), id);
    KeysOfSum(f.notices, PendingNotices(NotTold(ids, f.notices)), (id, PendingNotice));
  }

  /** Of a failure learn the requester and the approver, as far as they are active. */
  lemma FailureTells(f: CaseFile, user: nat, reason: string, category: string, now: int, stamp: int, users: seq<User>,
                     id: nat)
    requires Shape(f) && Open(f)
    ensures (id, FailedNotice) in Keys(FailedFile(f, user, reason, category, now, stamp, users).notices) <==>
            IsActive(users, id) && (id == f.preview.requester || id == user)
  {
    var items := FailureNotices(f.preview.requester, user);
    KeyWitness(items, (id, FailedNotice));
    assert items[0] in items && items[|items| - 1] in items;
    ActiveKeys(items, users, (id, FailedNotice));
    KeysOfSum(f.notices, OnlyActive(items, users), (id, FailedNotice));
    NotYet(f, (id, FailedNotice));
  }

  // ----- what the notices say

  lemma DedupedIsLast(items: seq<Notice>, n: Notice) returns (i: nat)
    requires n in Dedupe(items)
    ensures i < |items| && items[i] == n && forall j | i < j < |items| :: KeyOf(items[j]) != KeyOf(n)
  {
    DedupeKeeps(items);
    KeyWitness(items, KeyOf(n));
    i := LastOf(items, KeyOf(n));
    DedupeExactly(items, i);
    var kept := Dedupe(items);
    var p :| 0 <= p < |kept| && kept[p] == n;
    var q :| 0 <= q < |kept| && kept[q] == items[i];
    assert Keys(kept)[p] == Keys(kept)[q];
  }

  lemma {:induction false} WatchersSay(ids: seq<nat>, requester: nat, actor: nat)
    ensures forall n | n in Watchers(ids, requester, actor) ::
              && n.kind == CompletedNotice && n.title == SensitiveCompleted
              && n.recipient != requester && n.recipient != actor
  {
    if ids != [] {
      WatchersSay(ids[..|ids| - 1], requester, actor);
    }
  }

  lemma CompletionListed(p: Preview, actor: nat, override: bool, users: seq<User>, i: nat)
    requires i < |CompletionNotices(p, actor, override, users)|
    ensures var items := CompletionNotices(p, actor, override, users);
            && |items| >= 3 && items[2] == Notice(actor, CompletedNotice, ApprovedCompleted)
            && (i == 0 ==> items[i] == Notice(p.requester, ApprovedNotice, RequestApproved))
            && (i == 1 ==> items[i] == Notice(p.requester, CompletedNotice, RequestCompleted))
            && (i >= 3 ==> items[i] in Watchers(Approvers(users, p), p.requester, actor))
  {
  }

  /** Told of a completion, the approver reads that it was approved by them, the requester that the request is done,
      everybody else that a sensitive action was carried out; only the requester reads of an approval. */
  lemma CompletionSays(p: Preview, actor: nat, override: bool, users: seq<User>, n: Notice)
    requires n in CompletionTold(p, actor, override, users)
    ensures n.kind == ApprovedNotice || n.kind == CompletedNotice
    ensures n.kind == ApprovedNotice ==> n.recipient == p.requester && n.title == RequestApproved
    ensures n.kind == CompletedNotice ==>
            n.title == if n.recipient == actor then ApprovedCompleted
                       else if n.recipient == p.requester then RequestCompleted else SensitiveCompleted
  {
    var items := CompletionNotices(p, actor, override, users);
    OnlyActiveExactly(Dedupe(items), users);
    var i := DedupedIsLast(items, n);
    CompletionListed(p, actor, override, users, i);
    WatchersSay(Approvers(users, p), p.requester, actor);
    SaysAt(items, i, n, p.requester, actor);
  }

  lemma SaysAt(items: seq<Notice>, i: nat, n: Notice, requester: nat, actor: nat)
    requires |items| >= 3 && i < |items| && items[i] == n
    requires items[2] == Notice(actor, CompletedNotice, ApprovedCompleted)
    requires forall j | i < j < |items| :: KeyOf(items[j]) != KeyOf(n)
    requires i == 0 ==> n == Notice(requester, ApprovedNotice, RequestApproved)
    requires i == 1 ==> n == Notice(requester, CompletedNotice, RequestCompleted)
    requires i >= 3 ==> n.kind == CompletedNotice && n.title == SensitiveCompleted
                        && n.recipient != requester && n.recipient != actor
    ensures n.kind == ApprovedNotice || n.kind == CompletedNotice
    ensures n.kind == ApprovedNotice ==> n.recipient == requester && n.title == RequestApproved
    ensures n.kind == CompletedNotice ==>
            n.title == if n.recipient == actor then ApprovedCompleted
                       else if n.recipient == requester then RequestCompleted else SensitiveCompleted
  {
  }

  // ----- who signs

  /** The rows name the user, the time and the reason of the decision, and every row added to the trail its actor. */
  predicate SignedBy(f: CaseFile, g: CaseFile, user: nat, reason: string, now: int, stamp: int) {
    && g.approval.Some? && g.approval.value.decidedBy == Some(user) && g.approval.value.decidedAt == Some(now)
    && g.approval.value.reason == reason
    && g.deadline == f.deadline && g.previewDeadline == f.previewDeadline
    && |g.trail| > |f.trail| && g.trail[..|f.trail|] == f.trail
    && forall e | e in g.trail[|f.trail|..] :: e.actor == user && e.at == stamp
  }

  lemma RefusalSigned(f: CaseFile, user: nat, reason: string, now: int, stamp: int, users: seq<User>)
    requires f.approval.Some?
    ensures SignedBy(f, Refused(f, user, reason, now, stamp, users), user, reason, now, stamp)
  {
  }

  lemma CompletionSigned(f: CaseFile, user: nat, reason: string, final: Result, now: int, stamp: int, users: seq<User>)
    requires f.approval.Some?
    ensures var g := CompletedFile(f, user, reason, final, now, stamp, users);
            && SignedBy(f, g, user, reason, now, stamp)
            && g.approvedAt == g.executedAt == g.completedAt == Some(now)
            && g.trail[|g.trail| - 1].records == ExecutableIds(final.executable)
  {
  }

  lemma FailureSigned(f: CaseFile, user: nat, reason: string, category: string, now: int, stamp: int, users: seq<User>)
    requires Open(f)
    ensures var g := FailedFile(f, user, reason, category, now, stamp, users);
            SignedBy(f, g, user, reason, now, stamp) && g.failure == category && g.completedAt == Some(now)
  {
  }

  /** A request that ends without a decision: nobody is named as the one who decided, the approval says when and, if it
      was withdrawn, why, and one row names who called. */
  predicate ClosedUndecided(f: CaseFile, g: CaseFile, user: nat, now: int, stamp: int) {
    && f.approval.Some? && g.approval.Some?
    && g.approval.value.decidedBy == f.approval.value.decidedBy && g.approval.value.decidedAt == Some(now)
    && g.preview == f.preview && g.notices == f.notices
    && g.deadline == f.deadline && g.previewDeadline == f.previewDeadline
    && |g.trail| == |f.trail| + 1 && g.trail[..|f.trail|] == f.trail
    && g.trail[|f.trail|].actor == user && g.trail[|f.trail|].at == stamp
  }

  lemma WithdrawalSigned(f: CaseFile, user: nat, reason: string, now: int, stamp: int)
    requires Open(f)
    ensures var g := Withdrawn(f, user, reason, now, stamp);
            ClosedUndecided(f, g, user, now, stamp) && g.status == Cancelled && g.approval.value.reason == reason
  {
  }

  lemma ExpirySigned(f: CaseFile, user: nat, now: int, stamp: int)
    requires Open(f)
    ensures ClosedUndecided(f, Lapsed(f, user, now, stamp), user, now, stamp)
    ensures Lapsed(f, user, now, stamp).status == Expired
    ensures Lapsed(f, user, now, stamp).approval.value.reason == f.approval.value.reason
    ensures ExpiredByService(f, user, now, stamp) == Lapsed(f, user, now, stamp)
  {
  }

  /** The other notices: whoever can decide reads that a request is pending, whoever took part in a failed attempt that
      the request failed. */
  lemma OthersSay(ids: seq<nat>, requester: nat, actor: nat)
    ensures forall n | n in PendingNotices(ids) ::
              n.kind == PendingNotice && n.title == RequestPending && n.recipient in ids
    ensures forall n | n in FailureNotices(requester, actor) ::
              n.kind == FailedNotice && n.title == RequestFailed && (n.recipient == requester || n.recipient == actor)
  {
  }

  /** A new draft may be submitted for half an hour and asks for nothing yet. */
  lemma OpenedWaits(p: Preview, user: nat, now: int, stamp: int)
    ensures var f := Opened(p, user, now, stamp);
            && f.status == Draft && f.preview == p && f.previewDeadline == f.deadline == Some(now + 30 * 60)
            && f.approval.None? && f.notices == [] && f.trail == [Event(PreviewCreated, user, stamp, [])]
  {
  }
}
