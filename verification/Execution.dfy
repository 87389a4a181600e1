/** The guarded mutation of an approved action, with one audit row for each record. */
module Execution {
  import opened Options
  import opened Revalidation
  import opened Locking
  import Sorting

  const ACTION_ROLE := "queryops_action_runtime"

  datatype Session = Session(role: string, readOnly: bool, rowSecurity: bool) {
    predicate Secure() {
      role == ACTION_ROLE && !readOnly && rowSecurity
    }
  }

  datatype AuditRow = AuditRow(action: nat, actor: nat, kind: Kind, target: nat, user: nat, department: nat, at: int)

  function AuditRows(records: seq<Executable>, kind: Kind, action: nat, actor: nat, now: int): (rows: seq<AuditRow>)
    ensures |rows| == |records|
    ensures forall i | 0 <= i < |rows| ::
              rows[i] == AuditRow(action, actor, kind, records[i].id, records[i].user, records[i].department, now)
  {
    seq(|records|, i requires 0 <= i < |records| =>
      AuditRow(action, actor, kind, records[i].id, records[i].user, records[i].department, now))
  }

  lemma ChangedNone(w: World, kind: Kind)
    ensures Changed(w, kind, {}) == w
  {
    assert Changed(w, kind, {}).assignments == w.assignments;
    assert Changed(w, kind, {}).users == w.users;
  }

  lemma MatchedOneMore(w: World, kind: Kind, ids: set<nat>, id: nat)
    ensures |Matched(w, kind, ids + {id})| == |Matched(w, kind, ids)|
            + (if Live(w, kind, id) && id !in ids then 1 else 0)
  {
    if Live(w, kind, id) && id !in ids {
      assert Matched(w, kind, ids + {id}) == Matched(w, kind, ids) + {id};
    } else {
      assert Matched(w, kind, ids + {id}) == Matched(w, kind, ids);
    }
  }

  /** Writing one more row, and whether the update counts it. */
  lemma ChangedOneMore(w: World, kind: Kind, ids: set<nat>, id: nat)
    ensures var v := Changed(w, kind, ids);
            && Changed(w, kind, ids + {id}) == Changed(v, kind, {id})
            && (Live(v, kind, id) <==> Live(w, kind, id) && id !in ids)
            && |Matched(w, kind, ids + {id})| == |Matched(w, kind, ids)| + (if Live(v, kind, id) then 1 else 0)
  {
    var v := Changed(w, kind, ids);
    MatchedOneMore(w, kind, ids, id);
    if kind == Reclaim {
      assert Changed(w, kind, ids + {id}).assignments == Changed(v, kind, {id}).assignments;
    } else {
      assert Changed(w, kind, ids + {id}).users == Changed(v, kind, {id}).users;
    }
  }

  class Tables {
    var world: World
    var audit: seq<AuditRow>

    constructor (start: World)
      ensures world == start && audit == []
    {
      world := start;
      audit := [];
    }

    method Rollback(world: World, audit: seq<AuditRow>)
      modifies this
      ensures this.world == world && this.audit == audit
    {
      this.world, this.audit := world, audit;
    }

    /** Sets one row, if it still matches; says whether it did. */
    method Write(kind: Kind, id: nat) returns (matched: bool)
      modifies this`world
      ensures matched == Live(old(world), kind, id)
      ensures world == Changed(old(world), kind, {id})
    {
      matched := Live(world, kind, id);
      if matched {
        if kind == Reclaim {
          world := world.(assignments := world.assignments[id := world.assignments[id].(status := Reclaimed)]);
          assert world.assignments == Changed(old(world), kind, {id}).assignments;
        } else {
          world := world.(users := world.users[id := world.users[id].(status := Disabled)]);
          assert world.users == Changed(old(world), kind, {id}).users;
        }
      } else {
        assert Changed(world, kind, {id}).assignments == world.assignments;
        assert Changed(world, kind, {id}).users == world.users;
      }
    }

    method UpdateRows(kind: Kind, ids: seq<nat>) returns (rows: nat)
      modifies this`world
      ensures world == Changed(old(world), kind, Sorting.Elements(ids))
      ensures rows == |Matched(old(world), kind, Sorting.Elements(ids))|
    {
      rows := 0;
      ChangedNone(world, kind);
      assert Sorting.Elements(ids[..0]) == {};
      for n := 0 to |ids|
        invariant world == Changed(old(world), kind, Sorting.Elements(ids[..n]))
        invariant rows == |Matched(old(world), kind, Sorting.Elements(ids[..n]))|
      {
        ChangedOneMore(old(world), kind, Sorting.Elements(ids[..n]), ids[n]);
        assert Sorting.Elements(ids[..n + 1]) == Sorting.Elements(ids[..n]) + {ids[n]};
        var matched := Write(kind, ids[n]);
        if matched {
          rows := rows + 1;
        }
      }
      assert ids[..|ids|] == ids;
    }

    /** All the records or an error; after an error the caller rolls the working copy back. */
    method Execute(session: Session, kind: Kind, records: seq<Executable>, action: nat, actor: nat, now: int)
      returns (executed: Option<seq<nat>>)
      modifies this
      ensures executed.Some? <==>
              && session == Session("queryops_action_runtime", false, true)
              && Update(old(world), kind, ExecutableIds(records)).Some?
      ensures executed.Some? ==> executed.value == ExecutableIds(records)
                                 && world == Update(old(world), kind, ExecutableIds(records)).value
                                 && audit == old(audit) + AuditRows(records, kind, action, actor, now)
      ensures executed.None? ==> audit == old(audit)
    {
      if !session.Secure() {
        return None;
      }
      var ids := ExecutableIds(records);
      if ids != [] {
        var rows := UpdateRows(kind, ids);
        if rows != |ids| {
          return None;
        }
        for n := 0 to |records|
          modifies this`audit
          invariant audit == old(audit) + AuditRows(records, kind, action, actor, now)[..n]
        {
          var x := records[n];
          audit := audit + [AuditRow(action, actor, kind, x.id, x.user, x.department, now)];
        }
        assert AuditRows(records, kind, action, actor, now)[..|records|]
            == AuditRows(records, kind, action, actor, now);
      } else {
        ChangedNone(world, kind);
        assert Sorting.Elements(ids) == {};
        assert AuditRows(records, kind, action, actor, now) == [];
      }
      return Some(ids);
    }
  }
}
