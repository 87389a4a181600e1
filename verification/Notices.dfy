/** Who is told about an action: eligible approvers, and lists of notices without repetition. */
module Notices {
  import opened Options
  import opened Policy
  import opened Revalidation
  import opened Snapshot
  import Sorting

  datatype NoticeKind = PendingNotice | ApprovedNotice | CompletedNotice | RejectedNotice | FailedNotice

  /** The headings, which tell the requester, the approver and onlookers apart. */
  datatype Title =
    | RequestPending | RequestApproved | RequestRejected | RequestCompleted | ApprovedCompleted
    | SensitiveCompleted | RequestFailed

  datatype Notice = Notice(recipient: nat, kind: NoticeKind, title: Title)

  type Key = (nat, NoticeKind)

  function KeyOf(n: Notice): Key {
    (n.recipient, n.kind)
  }

  function Keys(items: seq<Notice>): (keys: seq<Key>)
    ensures |keys| == |items| && forall i | 0 <= i < |keys| :: keys[i] == KeyOf(items[i])
  {
    seq(|items|, i requires 0 <= i < |items| => KeyOf(items[i]))
  }

  // ----- who may decide

  /** The policy decision on the stored preview. */
  function DecisionOn(p: Preview, user: User): Decision {
    EvaluateApproval(user, p.requester, p.scopeType, p.scopeKey, p.recordCount,
                     p.scopeType == "global" || p.policy.crosses
                     || (p.policy.escalation.Some? && p.policy.escalation.value.crosses)
                     || p.recordCount > SCOPED_APPROVAL_RECORD_LIMIT,
                     p.policy.requiresOverride || p.policy.escalation.Some?)
  }

  /** Deciding on the stored preview takes the global permission and scope. */
  predicate TakesGlobal(p: Preview) {
    Wide(p.scopeType, p.recordCount,
         p.policy.crosses || (p.policy.escalation.Some? && p.policy.escalation.value.crosses))
  }

  lemma DecisionExactly(p: Preview, user: User)
    ensures DecisionOn(p, user).allowed <==>
            && MayTry(user, p.requester, p.recordCount, p.policy.requiresOverride || p.policy.escalation.Some?)
            && (if TakesGlobal(p) then HoldsGlobal(user) else HoldsScoped(user, p.scopeType, p.scopeKey))
    ensures DecisionOn(p, user).allowed ==>
            (DecisionOn(p, user).requiresAdmin <==>
               TakesGlobal(p) || p.policy.requiresOverride || p.policy.escalation.Some?)
  {
    ApprovalExactly(user, p.requester, p.scopeType, p.scopeKey, p.recordCount,
                    p.scopeType == "global" || p.policy.crosses
                    || (p.policy.escalation.Some? && p.policy.escalation.value.crosses)
                    || p.recordCount > SCOPED_APPROVAL_RECORD_LIMIT,
                    p.policy.requiresOverride || p.policy.escalation.Some?);
  }

  /** After an escalation only holders of the override permission decide, and if it found records outside the
      request's scope, only holders of the global permission and scope. */
  lemma EscalatedDecision(p: Preview, flags: seq<Flag>, crosses: bool, user: User)
    requires p.policy.escalation.None?
    ensures DecisionOn(Escalated(p, flags, crosses), user).allowed <==>
            && MayTry(user, p.requester, p.recordCount, true)
            && (if crosses || TakesGlobal(p) then HoldsGlobal(user) else HoldsScoped(user, p.scopeType, p.scopeKey))
  {
    DecisionExactly(Escalated(p, flags, crosses), user);
  }

  lemma CodesOfOverrides(s: Preview)
    requires Valid(s)
    ensures s.overrides == [] <==> CodeSet(OverrideCodes(s.overrides)) == {}
  {
    if s.overrides != [] {
      var last := s.overrides[|s.overrides| - 1];
      assert RecordValid(s.kind, last, true, true);
      assert CodesOf(last) != [] && CodesOf(last)[0] in OverrideCodes(s.overrides);
      assert CodesOf(last)[0] in CodeSet(OverrideCodes(s.overrides));
    }
  }

  /** A valid preview says that it needs an admin exactly when every decision on it is one of an admin. */
  lemma AdminExactly(p: Preview, user: User)
    requires Valid(p) && DecisionOn(p, user).allowed
    ensures DecisionOn(p, user).requiresAdmin == p.requiresAdmin
  {
    DecisionExactly(p, user);
    CodesOfOverrides(p);
    if p.policy.crosses {
      assert CROSS_SCOPE in CodeSet(OverrideCodes(p.overrides));
    }
    assert p.recordCount == |p.eligible| + |p.overrides|;
    if p.recordCount > 20 {
      assert OVER_THRESHOLD in ExpectedFlags(p);
    }
    if p.scopeType == "global" {
      assert GLOBAL_SCOPE_REQUEST in ExpectedFlags(p);
    }
  }

  function AllowedIds(users: seq<User>, p: Preview): seq<nat> {
    if users == [] then []
    else AllowedIds(users[..|users| - 1], p)
         + (if DecisionOn(p, users[|users| - 1]).allowed then [users[|users| - 1].id] else [])
  }

  /** The active users who may decide, each once, in order of their ids. */
  function Approvers(users: seq<User>, p: Preview): seq<nat> {
    OrderedIds(AllowedIds(users, p))
  }

  method EligibleApprovers(users: seq<User>, p: Preview) returns (ids: seq<nat>)
    ensures ids == Approvers(users, p)
  {
    var recipients: map<nat, User>, keys: seq<nat> := map[], [];
    for n := 0 to |users|
      invariant keys == Sorting.Unique(AllowedIds(users[..n], p))
      invariant forall id :: id in recipients <==> id in AllowedIds(users[..n], p)
    {
      assert users[..n + 1][..n] == users[..n];
      var user := users[n];
      if DecisionOn(p, user).allowed {
        assert AllowedIds(users[..n + 1], p) == AllowedIds(users[..n], p) + [user.id];
        assert AllowedIds(users[..n + 1], p)[..|AllowedIds(users[..n], p)|] == AllowedIds(users[..n], p);
        if user.id !in recipients {
          keys := keys + [user.id];
        }
        recipients := recipients[user.id := user];
      } else {
        assert AllowedIds(users[..n + 1], p) == AllowedIds(users[..n], p);
      }
    }
    assert users[..|users|] == users;
    ids := Sorting.Sort((a: nat, b: nat) => a <= b, keys);
  }

  lemma {:induction false} AllowedIdsExactly(users: seq<User>, p: Preview, id: nat)
    ensures id in AllowedIds(users, p) <==> exists u | u in users :: u.id == id && DecisionOn(p, u).allowed
  {
    if users != [] {
      var front, last := users[..|users| - 1], users[|users| - 1];
      assert users == front + [last];
      AllowedIdsExactly(front, p, id);
      if exists u | u in users :: u.id == id && DecisionOn(p, u).allowed {
        var u :| u in users && u.id == id && DecisionOn(p, u).allowed;
        assert u in front || u == last;
      }
    }
  }

  /** Exactly the users who could decide at this moment are told, and nobody twice. */
  lemma ApproversExactly(users: seq<User>, p: Preview, id: nat)
    ensures Sorting.Distinct(Approvers(users, p))
    ensures id in Approvers(users, p) <==> exists u | u in users :: u.id == id && DecisionOn(p, u).allowed
  {
    var ids := AllowedIds(users, p);
    OrderedIdsExactly(ids);
    Sorting.SameElements(OrderedIds(ids), Sorting.Unique(ids));
    AllowedIdsExactly(users, p, id);
  }

  // ----- dropping repeated notices

  function Find(items: seq<Notice>, key: Key): (k: Option<nat>)
    ensures k.Some? ==> k.value < |items| && KeyOf(items[k.value]) == key
    ensures k.None? ==> forall n | n in items :: KeyOf(n) != key
  {
    if items == [] then None
    else
      assert items == items[..|items| - 1] + [items[|items| - 1]];
      if KeyOf(items[|items| - 1]) == key then Some(|items| - 1) else Find(items[..|items| - 1], key)
  }

  /** What assigning `n` under its key does to the values of a dictionary, in order. */
  function Put(items: seq<Notice>, n: Notice): seq<Notice> {
    var k := Find(items, KeyOf(n));
    if k.Some? then items[k.value := n] else items + [n]
  }

  function Dedupe(items: seq<Notice>): seq<Notice> {
    if items == [] then [] else Put(Dedupe(items[..|items| - 1]), items[|items| - 1])
  }

  lemma PutKeys(items: seq<Notice>, n: Notice)
    requires Sorting.Distinct(Keys(items))
    ensures Sorting.Distinct(Keys(Put(items, n)))
    ensures forall m | m in items && KeyOf(m) != KeyOf(n) :: m in Put(items, n)
    ensures n in Put(items, n)
    ensures forall m | m in Put(items, n) :: m == n || m in items
  {
    var k := Find(items, KeyOf(n));
    if k.Some? {
      assert Keys(Put(items, n)) == Keys(items);
      forall m | m in items && KeyOf(m) != KeyOf(n) ensures m in Put(items, n) {
        var i :| 0 <= i < |items| && items[i] == m;
        assert Put(items, n)[i] == m;
      }
      assert Put(items, n)[k.value] == n;
    } else {
      assert Keys(Put(items, n)) == Keys(items) + [KeyOf(n)];
      forall i | 0 <= i < |items| ensures Keys(items)[i] != KeyOf(n) {
        assert items[i] in items;
      }
    }
  }

  lemma {:induction false} DedupeKeeps(items: seq<Notice>)
    ensures Sorting.Distinct(Keys(Dedupe(items)))
    ensures forall m | m in Dedupe(items) :: m in items
  {
    if items != [] {
      DedupeKeeps(items[..|items| - 1]);
      PutKeys(Dedupe(items[..|items| - 1]), items[|items| - 1]);
    }
  }

  /** One notice is kept for each key: the last one given. */
  lemma {:induction false} DedupeExactly(items: seq<Notice>, i: nat)
    requires i < |items| && forall j | i < j < |items| :: KeyOf(items[j]) != KeyOf(items[i])
    ensures items[i] in Dedupe(items)
    ensures Sorting.Distinct(Keys(Dedupe(items)))
  {
    var front, last := items[..|items| - 1], items[|items| - 1];
    DedupeKeeps(front);
    PutKeys(Dedupe(front), last);
    if i < |front| {
      DedupeExactly(front, i);
    }
  }

  method DedupeNotices(items: seq<Notice>) returns (kept: seq<Notice>)
    ensures kept == Dedupe(items)
  {
    kept := [];
    for n := 0 to |items|
      invariant kept == Dedupe(items[..n])
    {
      assert items[..n + 1][..n] == items[..n];
      var k := Find(kept, KeyOf(items[n]));
      if k.Some? {
        kept := kept[k.value := items[n]];
      } else {
        kept := kept + [items[n]];
      }
    }
    assert items[..|items|] == items;
  }

  // ----- only active recipients

  predicate IsActive(users: seq<User>, id: nat) {
    exists u | u in users :: u.id == id
  }

  function OnlyActive(items: seq<Notice>, users: seq<User>): seq<Notice> {
    if items == [] then []
    else OnlyActive(items[..|items| - 1], users)
         + (if IsActive(users, items[|items| - 1].recipient) then [items[|items| - 1]] else [])
  }

  lemma {:induction false} OnlyActiveExactly(items: seq<Notice>, users: seq<User>)
    ensures forall n :: n in OnlyActive(items, users) <==> n in items && IsActive(users, n.recipient)
  {
    if items != [] {
      assert items == items[..|items| - 1] + [items[|items| - 1]];
      OnlyActiveExactly(items[..|items| - 1], users);
    }
  }

  lemma {:induction false} OnlyActiveDistinct(items: seq<Notice>, users: seq<User>)
    requires Sorting.Distinct(Keys(items))
    ensures Sorting.Distinct(Keys(OnlyActive(items, users)))
  {
    if items != [] {
      var front, last := items[..|items| - 1], items[|items| - 1];
      assert Keys(front) == Keys(items)[..|front|];
      OnlyActiveDistinct(front, users);
      OnlyActiveExactly(front, users);
      var kept := OnlyActive(front, users);
      forall i | 0 <= i < |kept| ensures KeyOf(kept[i]) != KeyOf(last) {
        assert kept[i] in front;
        var j :| 0 <= j < |front| && front[j] == kept[i];
        assert Keys(items)[j] != Keys(items)[|front|];
      }
      assert Keys(kept + [last]) == Keys(kept) + [KeyOf(last)];
    }
  }

  function PendingNotices(ids: seq<nat>): (items: seq<Notice>)
    ensures |items| == |ids|
    ensures forall i | 0 <= i < |ids| :: items[i] == Notice(ids[i], PendingNotice, RequestPending)
  {
    seq(|ids|, i requires 0 <= i < |ids| => Notice(ids[i], PendingNotice, RequestPending))
  }

  /** The ids that have no notice yet. */
  function NotTold(ids: seq<nat>, notices: seq<Notice>): seq<nat> {
    if ids == [] then []
    else NotTold(ids[..|ids| - 1], notices)
         + (if (ids[|ids| - 1], PendingNotice) in Keys(notices) then [] else [ids[|ids| - 1]])
  }

  lemma {:induction false} NotToldExactly(ids: seq<nat>, notices: seq<Notice>)
    ensures forall id :: id in NotTold(ids, notices) <==> id in ids && (id, PendingNotice) !in Keys(notices)
    ensures Sorting.Distinct(ids) ==> Sorting.Distinct(NotTold(ids, notices))
  {
    if ids != [] {
      var front, last := ids[..|ids| - 1], ids[|ids| - 1];
      assert ids == front + [last];
      NotToldExactly(front, notices);
    }
  }
}
