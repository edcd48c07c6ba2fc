/** The recent visits handler over its table and the clock. */
module RecentVisitsHandler {
  import opened Schema
  import opened Sequences
  import opened RecentVisits

  class Handler {
    var visits: Table
    /** The i-th reading of the clock, and how many have been taken. */
    const clock: nat -> nat
    var taken: nat

    constructor (clock: nat -> nat)
      ensures visits == map[] && taken == 0 && this.clock == clock
    {
      visits, taken, this.clock := map[], 0, clock;
    }

    /** Upsert the whole request, commit, evict, commit, and answer with the newest visits. A request that names one new
        resource twice violates the unique constraint, one with an id too long its column: the call raises, no row changes. */
    method SyncRecentVisits(tenant: Id, user: Id, items: seq<Item>, existing: Existing)
      returns (answer: Option<seq<VisitKey>>)
      requires Accepted(items)
      modifies this
      ensures answer.Some? <==> CommitSucceeds(old(visits), tenant, user, items)
      ensures answer.None? ==> visits == old(visits)
      ensures answer.Some? ==> Evicts(Committed(old(visits), tenant, user, items, clock, old(taken)).0, visits, tenant, user)
      ensures answer.Some? ==> IsListing(visits, UserKeys(visits, tenant, user), existing, 20, answer.value)
      ensures StampsTaken(old(visits), clock, old(taken)) ==> StampsTaken(visits, clock, taken)
    {
      CommittedStamps(visits, tenant, user, items, clock, taken);
      ghost var committed := Committed(visits, tenant, user, items, clock, taken);
      if StampsTaken(visits, clock, taken) {
        StampsStayTaken(visits, committed.0, RequestedKeys(tenant, user, items), clock, taken, committed.1);
      }
      var session, pending := Stage(tenant, user, items);
      if !NoRepeats(KeysOf(tenant, user, pending)) || !IdsFit(pending) {
        return None;
      }
      Flush(session, tenant, user, pending);
      CleanupOldVisits(tenant, user);
      var newest := ListRecentVisits(tenant, user, 20, [], existing);
      assert UserKeysOfTypes(visits, tenant, user, []) == UserKeys(visits, tenant, user);
      answer := Some(newest);
    }

    /** The upsert loop: rows found are changed in the session, the others are added to it but not flushed, so later
        queries of the same loop do not see them. */
    method Stage(tenant: Id, user: Id, items: seq<Item>) returns (session: Table, pending: seq<Item>)
      modifies this`taken
      ensures (session, taken) == Updated(visits, tenant, user, items, clock, old(taken))
      ensures pending == NewItems(visits, tenant, user, items)
      ensures old(taken) <= taken
    {
      session, pending := visits, [];
      for i := 0 to |items|
        invariant (session, taken) == Updated(visits, tenant, user, items[..i], clock, old(taken))
        invariant pending == NewItems(visits, tenant, user, items[..i])
        invariant old(taken) <= taken
      {
        assert items[..i + 1][..i] == items[..i];
        var key := KeyOf(tenant, user, items[i]);
        if key in visits {
          session := session[key := Visit(items[i].name, clock(taken))];
          taken := taken + 1;
        } else {
          pending := pending + [items[i]];
        }
      }
      assert items[..|items|] == items;
    }

    /** The commit: the added rows are stamped as they are inserted. */
    method Flush(session: Table, tenant: Id, user: Id, pending: seq<Item>)
      modifies this
      ensures (visits, taken) == Inserted(session, tenant, user, pending, clock, old(taken))
    {
      visits := session;
      for i := 0 to |pending|
        invariant (visits, taken) == Inserted(session, tenant, user, pending[..i], clock, old(taken))
      {
        assert pending[..i + 1][..i] == pending[..i];
        visits := visits[KeyOf(tenant, user, pending[i]) := Visit(pending[i].name, clock(taken))];
        taken := taken + 1;
      }
      assert pending[..|pending|] == pending;
    }

    method CleanupOldVisits(tenant: Id, user: Id)
      modifies this`visits
      ensures Evicts(old(visits), visits, tenant, user)
    {
      var keys := UserKeys(visits, tenant, user);
      if |keys| > MAX_VISITS_PER_USER {
        var excess := |keys| - MAX_VISITS_PER_USER;
        var ordered := OrderByTime(keys, false);
        NoRepeatsSize(ordered, keys);
        var oldest := set k | k in ordered[..excess];
        NoRepeatsSize(ordered[..excess], oldest);
        visits := visits - oldest;
        assert oldest <= keys;
        assert UserKeys(visits, tenant, user) == keys - oldest;
        forall kept, gone | kept in UserKeys(visits, tenant, user) && gone in oldest
          ensures old(visits)[gone].at <= old(visits)[kept].at
        {
          var i :| 0 <= i < excess && ordered[i] == gone;
          var j :| 0 <= j < |ordered| && ordered[j] == kept;
          assert j < excess ==> kept in oldest;
        }
      }
    }

    /** ORDER BY visited_at, ascending or descending. */
    method OrderByTime(keys: set<VisitKey>, newestFirst: bool) returns (ordered: seq<VisitKey>)
      requires keys <= visits.Keys
      ensures InTimeOrder(visits, keys, ordered, newestFirst)
    {
      var rest := keys;
      ordered := [];
      while rest != {}
        invariant rest <= keys
        invariant InTimeOrder(visits, keys - rest, ordered, newestFirst)
        invariant forall i, k :: 0 <= i < |ordered| && k in rest ==>
          if newestFirst then visits[k].at <= visits[ordered[i]].at else visits[ordered[i]].at <= visits[k].at
        decreases rest
      {
        var next := Extreme(rest, newestFirst);
        ordered, rest := ordered + [next], rest - {next};
      }
    }

    method Extreme(keys: set<VisitKey>, newest: bool) returns (best: VisitKey)
      requires keys != {} && keys <= visits.Keys
      ensures best in keys
      ensures forall k :: k in keys ==> if newest then visits[k].at <= visits[best].at else visits[best].at <= visits[k].at
    {
      best :| best in keys;
      var rest := keys - {best};
      while rest != {}
        invariant rest <= keys && best in keys
        invariant forall k :: k in keys - rest ==> if newest then visits[k].at <= visits[best].at else visits[best].at <= visits[k].at
        decreases rest
      {
        var k :| k in rest;
        if if newest then visits[k].at > visits[best].at else visits[k].at < visits[best].at {
          best := k;
        }
        rest := rest - {k};
      }
    }

    /** The newest visits of a user, optionally of some types, without those whose resource is gone. */
    method ListRecentVisits(tenant: Id, user: Id, limit: nat, types: seq<string>, existing: Existing)
      returns (answer: seq<VisitKey>)
      ensures IsListing(visits, UserKeysOfTypes(visits, tenant, user, types), existing, limit, answer)
    {
      var keys := UserKeysOfTypes(visits, tenant, user, types);
      var newest := OrderByTime(keys, true);
      var fetched := Slice(newest, 0, limit * 2);
      var valid := FilterExistingResources(fetched, existing);
      answer := Slice(valid, 0, limit);
    }

    /** Group the visits by type, ask each type's table which of their ids exist, and keep the visits whose id any of
        them returned. A type without a table is skipped. */
    method FilterExistingResources(fetched: seq<VisitKey>, existing: Existing) returns (valid: seq<VisitKey>)
      ensures valid == Filter(fetched, v => LiveUnderSomeType(existing, fetched, v))
    {
      var rows := seq(|fetched|, i requires 0 <= i < |fetched| => (fetched[i].resourceType, fetched[i]));
      var types, byType := GroupByKey(rows);
      GroupingKeepsRows(rows);
      var ids: set<Id> := {};
      for i := 0 to |types|
        invariant forall id :: id in ids <==> exists w :: w in fetched && w.resource == id && w.resourceType in types[..i] && Live(existing, w)
      {
        var t := types[i];
        if t in existing {
          var asked := set v: VisitKey | v in byType[t] :: v.resource;
          var found := asked * existing[t];
          forall id ensures id in found <==> exists w :: w in fetched && w.resource == id && w.resourceType == t && Live(existing, w) {
            FoundUnderType(fetched, rows, t, existing, id);
          }
          ids := ids + found;
        }
        assert types[..i + 1] == types[..i] + [t];
      }
      assert types[..|types|] == types;
      forall v | v in fetched ensures v.resource in ids <==> LiveUnderSomeType(existing, fetched, v) {
        forall w | w in fetched ensures w.resourceType in types {
          var j :| 0 <= j < |fetched| && fetched[j] == w;
          assert rows[j] in rows;
          assert w in Values(rows, w.resourceType);
        }
      }
      SameFilter(fetched, (v: VisitKey) => v.resource in ids, v => LiveUnderSomeType(existing, fetched, v));
      valid := Filter(fetched, (v: VisitKey) => v.resource in ids);
    }
  }

  lemma FoundUnderType(fetched: seq<VisitKey>, rows: seq<(string, VisitKey)>, t: string, existing: Existing, id: Id)
    requires |rows| == |fetched| && forall i :: 0 <= i < |rows| ==> rows[i] == (fetched[i].resourceType, fetched[i])
    requires t in existing
    ensures (id in (set v: VisitKey | v in Values(rows, t) :: v.resource) * existing[t]) <==>
      exists w :: w in fetched && w.resource == id && w.resourceType == t && Live(existing, w)
  {
    GroupingKeepsRows(rows);
    forall v ensures v in Values(rows, t) <==> v in fetched && v.resourceType == t {
      if v in Values(rows, t) {
        var i :| 0 <= i < |rows| && rows[i] == (t, v);
      }
      if v in fetched && v.resourceType == t {
        var i :| 0 <= i < |fetched| && fetched[i] == v;
        assert rows[i] == (t, v);
      }
    }
  }
}
