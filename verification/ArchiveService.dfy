// Archive transactions as they run, row by row.
module ArchiveService {
  import opened Bytes
  import opened Archive

  /** Deleting one business after another. */
  function DeleteEach(s: State, ids: seq<string>): State {
    if ids == [] then s else DeleteBusiness(DeleteEach(s, ids[..|ids| - 1]), ids[|ids| - 1])
  }

  /** A business that a delete takes. */
  predicate Deletable(s: State, id: string) {
    id in s.businesses && !Protected(s.rows, id)
  }

  /** The businesses asked for that a delete takes. */
  function Taken(s: State, ids: seq<string>): set<string> {
    set id | id in ids && Deletable(s, id)
  }

  function Blocked(s: State, ids: seq<string>): set<string> {
    set id | id in ids && id in s.businesses && Protected(s.rows, id)
  }

  function Missing(s: State, ids: seq<string>): set<string> {
    set id | id in ids && id !in s.businesses
  }

  lemma OneMoreTaken(s: State, ids: seq<string>, id: string)
    requires id !in ids
    ensures Taken(s, ids + [id]) == Taken(s, ids) + if Deletable(s, id) then {id} else {}
    ensures |Taken(s, ids + [id])| == |Taken(s, ids)| + if Deletable(s, id) then 1 else 0
  {
    if Deletable(s, id) {
      assert Taken(s, ids + [id]) == Taken(s, ids) + {id};
    } else {
      assert Taken(s, ids + [id]) == Taken(s, ids);
    }
  }

  lemma OneMoreBlocked(s: State, ids: seq<string>, id: string)
    requires id !in ids
    ensures |Blocked(s, ids + [id])| ==
            |Blocked(s, ids)| + if id in s.businesses && Protected(s.rows, id) then 1 else 0
  {
    if id in s.businesses && Protected(s.rows, id) {
      assert Blocked(s, ids + [id]) == Blocked(s, ids) + {id};
    } else {
      assert Blocked(s, ids + [id]) == Blocked(s, ids);
    }
  }

  lemma OneMoreMissing(s: State, ids: seq<string>, id: string)
    requires id !in ids
    ensures |Missing(s, ids + [id])| == |Missing(s, ids)| + if id in s.businesses then 0 else 1
  {
    if id in s.businesses {
      assert Missing(s, ids + [id]) == Missing(s, ids);
    } else {
      assert Missing(s, ids + [id]) == Missing(s, ids) + {id};
    }
  }

  /** Exactly these businesses are gone, with exactly their rows. */
  ghost predicate Gone(s: State, s': State, taken: set<string>) {
    && s'.campaigns == s.campaigns
    && s'.businesses == s.businesses - taken
    && (forall r :: r in s'.rows <==> r in s.rows && r.business !in taken)
  }

  ghost predicate RowsGone(rows: seq<Row>, later: seq<Row>, id: string) {
    forall r :: r in later <==> r in rows && r.business != id
  }

  lemma DeleteTakesRows(s: State, id: string)
    requires Deletable(s, id)
    ensures RowsGone(s.rows, DeleteBusiness(s, id).rows, id)
  {
    forall r ensures r in DeleteBusiness(s, id).rows <==> r in s.rows && r.business != id {
      DeleteIsCleanOrRefused(s, id, r);
    }
  }

  lemma GoneThenGone(s: State, s': State, later: State, taken: set<string>, id: string)
    requires Gone(s, s', taken) && RowsGone(s'.rows, later.rows, id)
    requires later.campaigns == s'.campaigns && later.businesses == s'.businesses - {id}
    ensures Gone(s, later, taken + {id})
  {
    assert s.businesses - (taken + {id}) == s.businesses - taken - {id};
  }

  lemma OneMoreGone(s: State, s': State, taken: set<string>, id: string)
    requires Gone(s, s', taken)
    ensures Gone(s, DeleteBusiness(s', id), if Deletable(s', id) then taken + {id} else taken)
  {
    if Deletable(s', id) {
      DeleteTakesRows(s', id);
      GoneThenGone(s, s', DeleteBusiness(s', id), taken, id);
    }
  }

  /** What is still there is as protected as it was. */
  lemma SameProtection(s: State, s': State, taken: set<string>, id: string)
    requires Gone(s, s', taken)
    ensures Deletable(s', id) <==> Deletable(s, id) && id !in taken
  {
    assert Row(Approvals, id) in s'.rows <==> Row(Approvals, id) in s.rows && id !in taken;
    assert Row(OutreachMessages, id) in s'.rows <==> Row(OutreachMessages, id) in s.rows && id !in taken;
  }

  lemma TakenSnoc(s: State, ids: seq<string>, id: string)
    ensures Taken(s, ids + [id]) == if Deletable(s, id) then Taken(s, ids) + {id} else Taken(s, ids)
  {}

  /** Whatever the order, each business is judged on the state before. */
  lemma {:induction false} DeleteEachTakes(s: State, ids: seq<string>)
    ensures Gone(s, DeleteEach(s, ids), Taken(s, ids))
    decreases |ids|
  {
    if ids != [] {
      var first, id := ids[..|ids| - 1], ids[|ids| - 1];
      DeleteEachTakes(s, first);
      OneMoreGone(s, DeleteEach(s, first), Taken(s, first), id);
      SameProtection(s, DeleteEach(s, first), Taken(s, first), id);
      TakenSnoc(s, first, id);
      assert ids == first + [id];
      assert id in Taken(s, first) ==> Taken(s, first) + {id} == Taken(s, first);
    }
  }

  datatype Answer = DeletedBusiness | BlockedByOutreach | NotFound

  function AnswerTo(s: State, id: string): Answer {
    if id !in s.businesses then NotFound else if Protected(s.rows, id) then BlockedByOutreach else DeletedBusiness
  }

  /** One more id counts in exactly one of the three ways, as its answer tells. */
  lemma OneMoreAsked(s: State, ids: seq<string>, id: string)
    requires id !in ids
    ensures DeleteEach(s, ids + [id]) == DeleteBusiness(DeleteEach(s, ids), id)
    ensures var answer := AnswerTo(DeleteEach(s, ids), id);
            && |Taken(s, ids + [id])| == |Taken(s, ids)| + (if answer.DeletedBusiness? then 1 else 0)
            && |Blocked(s, ids + [id])| == |Blocked(s, ids)| + (if answer.BlockedByOutreach? then 1 else 0)
            && |Missing(s, ids + [id])| == |Missing(s, ids)| + (if answer.NotFound? then 1 else 0)
  {
    assert (ids + [id])[..|ids|] == ids;
    DeleteEachTakes(s, ids);
    SameProtection(s, DeleteEach(s, ids), Taken(s, ids), id);
    OneMoreTaken(s, ids, id);
    OneMoreBlocked(s, ids, id);
    OneMoreMissing(s, ids, id);
  }

  /** The ids asked for, once each, without the empty ones. */
  function Unique(ids: seq<string>): (unique: seq<string>)
    ensures forall id :: id in unique <==> id in ids && id != ""
    ensures forall i, j :: 0 <= i < j < |unique| ==> unique[i] != unique[j]
  {
    if ids == [] then []
    else
      var first, last := Unique(ids[..|ids| - 1]), ids[|ids| - 1];
      if last == "" || last in first then first else first + [last]
  }

  /** Deleting by name, told on the rows: what has an approval or a message stays, everything else asked for goes. */
  lemma DeletedAreTheFree(s: State, ids: seq<string>)
    ensures var s' := DeleteEach(s, Unique(ids));
            && s'.campaigns == s.campaigns
            && (forall id :: id in s'.businesses <==>
                  id in s.businesses
                  && (id in ids && id != "" ==> Row(Approvals, id) in s.rows || Row(OutreachMessages, id) in s.rows))
            && (forall id :: id in s'.businesses ==> s'.businesses[id] == s.businesses[id])
            && (forall r :: r in s'.rows <==>
                  r in s.rows && (r.business in s.businesses ==> r.business in s'.businesses))
  {
    DeleteEachTakes(s, Unique(ids));
    assert Gone(s, DeleteEach(s, Unique(ids)), Taken(s, Unique(ids)));
  }

  /** The three counts, by name: gone, kept by outreach, unknown. */
  lemma CountsOf(s: State, ids: seq<string>)
    ensures |Taken(s, Unique(ids))| ==
            |set id | id in ids && id != "" && id in s.businesses
                      && Row(Approvals, id) !in s.rows && Row(OutreachMessages, id) !in s.rows|
    ensures |Blocked(s, Unique(ids))| ==
            |set id | id in ids && id != "" && id in s.businesses
                      && (Row(Approvals, id) in s.rows || Row(OutreachMessages, id) in s.rows)|
    ensures |Missing(s, Unique(ids))| == |set id | id in ids && id != "" && id !in s.businesses|
  {
    assert Taken(s, Unique(ids)) ==
           set id | id in ids && id != "" && id in s.businesses
                    && Row(Approvals, id) !in s.rows && Row(OutreachMessages, id) !in s.rows;
    assert Blocked(s, Unique(ids)) ==
           set id | id in ids && id != "" && id in s.businesses
                    && (Row(Approvals, id) in s.rows || Row(OutreachMessages, id) in s.rows);
    assert Missing(s, Unique(ids)) == set id | id in ids && id != "" && id !in s.businesses;
  }

  class Service {
    var state: State

    constructor (start: State)
      ensures state == start
    {
      state := start;
    }

    /** Stamps every live business of a set at one instant; returns how many there were. */
    method ShelveRows(ids: set<string>, at: int, reason: Option<string>) returns (shelved: nat)
      modifies this
      ensures state == ArchiveMany(old(state), ids, at, reason)
      ensures shelved == |set id | id in old(state).businesses && id in ids && old(state).businesses[id].archivedAt.None?|
    {
      var live := set id | id in state.businesses && id in ids && state.businesses[id].archivedAt.None?;
      ghost var before := state.businesses;
      shelved := |live|;
      var rest := live;
      while rest != {}
        invariant rest <= live && state == old(state).(businesses := state.businesses)
        invariant state.businesses.Keys == before.Keys
        invariant forall id :: id in before ==>
                    state.businesses[id] == if id in live - rest then Shelved(before[id], at, reason) else before[id]
        decreases rest
      {
        var id :| id in rest;
        state := state.(businesses := state.businesses[id := Shelved(state.businesses[id], at, reason)]);
        rest := rest - {id};
      }
      assert rest == {} && live - rest == live;
      forall id | id in before ensures state.businesses[id] == ShelveLive(before, ids, at, reason)[id] {}
      assert state.businesses == ShelveLive(before, ids, at, reason);
    }

    /** None when there is no such campaign; otherwise how many businesses the cascade shelved. */
    method ShelveWithCampaign(c: string, at: int, reason: Option<string>) returns (shelved: Option<nat>)
      modifies this
      ensures shelved.Some? <==> c in old(state).campaigns
      ensures shelved.Some? ==>
                shelved.value == if old(state).campaigns[c].archivedAt.Some? then 0
                                 else |set id | id in old(state).businesses && id in Members(old(state).businesses, c)
                                              && old(state).businesses[id].archivedAt.None?|
      ensures state == ArchiveCampaign(old(state), c, at, reason)
    {
      if c !in state.campaigns {
        return None;
      }
      if state.campaigns[c].archivedAt.Some? {
        return Some(0);
      }
      var n := ShelveRows(Members(state.businesses, c), at, reason);
      state := state.(campaigns := state.campaigns[c := Campaign("paused", Some(at), reason)]);
      return Some(n);
    }

    /** Skips what outreach protects; every business asked for is deleted, blocked or missing. */
    method DeleteBusinesses(ids: seq<string>) returns (deleted: nat, blocked: nat, missing: nat)
      modifies this
      ensures state.campaigns == old(state).campaigns
      ensures forall id :: id in state.businesses <==>
                id in old(state).businesses
                && (id in ids && id != "" ==> Row(Approvals, id) in old(state).rows || Row(OutreachMessages, id) in old(state).rows)
      ensures forall id :: id in state.businesses ==> state.businesses[id] == old(state).businesses[id]
      ensures forall r :: r in state.rows <==>
                r in old(state).rows && (r.business in old(state).businesses ==> r.business in state.businesses)
      ensures deleted == |set id | id in ids && id != "" && id in old(state).businesses
                                   && Row(Approvals, id) !in old(state).rows && Row(OutreachMessages, id) !in old(state).rows|
      ensures blocked == |set id | id in ids && id != "" && id in old(state).businesses
                                   && (Row(Approvals, id) in old(state).rows || Row(OutreachMessages, id) in old(state).rows)|
      ensures missing == |set id | id in ids && id != "" && id !in old(state).businesses|
    {
      ghost var before := state;
      deleted, blocked, missing := DeleteUnique(Unique(ids));
      DeletedAreTheFree(before, ids);
      CountsOf(before, ids);
    }

    /** One business after the other. */
    method DeleteUnique(unique: seq<string>) returns (deleted: nat, blocked: nat, missing: nat)
      requires forall i, j :: 0 <= i < j < |unique| ==> unique[i] != unique[j]
      modifies this
      ensures state == DeleteEach(old(state), unique)
      ensures deleted == |Taken(old(state), unique)|
      ensures blocked == |Blocked(old(state), unique)|
      ensures missing == |Missing(old(state), unique)|
    {
      ghost var before := state;
      deleted, blocked, missing := 0, 0, 0;
      for i := 0 to |unique|
        invariant state == DeleteEach(before, unique[..i])
        invariant deleted == |Taken(before, unique[..i])|
        invariant blocked == |Blocked(before, unique[..i])|
        invariant missing == |Missing(before, unique[..i])|
      {
        assert unique[i] !in unique[..i];
        assert unique[..i + 1] == unique[..i] + [unique[i]];
        OneMoreAsked(before, unique[..i], unique[i]);
        var answer := DeleteOne(unique[i]);
        deleted := deleted + if answer.DeletedBusiness? then 1 else 0;
        blocked := blocked + if answer.BlockedByOutreach? then 1 else 0;
        missing := missing + if answer.NotFound? then 1 else 0;
      }
      assert unique[..|unique|] == unique;
    }

    /** One business, if it is there and outreach does not protect it. */
    method DeleteOne(id: string) returns (answer: Answer)
      modifies this
      ensures state == DeleteBusiness(old(state), id)
      ensures answer == AnswerTo(old(state), id)
    {
      if id !in state.businesses {
        return NotFound;
      }
      if Protected(state.rows, id) {
        return BlockedByOutreach;
      }
      DeleteRows(id);
      return DeletedBusiness;
    }

    /** Children first, then the business. */
    method DeleteRows(id: string)
      requires id in state.businesses
      modifies this
      ensures state == old(state).(businesses := old(state).businesses - {id},
                                   rows := WithoutAll(old(state).rows, Order(), id))
    {
      var tables := Order();
      for i := 0 to |tables|
        invariant state.businesses == old(state).businesses && state.campaigns == old(state).campaigns
        invariant WithoutAll(state.rows, tables[i..], id) == WithoutAll(old(state).rows, Order(), id)
      {
        assert tables[i..][1..] == tables[i + 1..];
        state := state.(rows := Without(state.rows, tables[i], id));
      }
      state := state.(businesses := state.businesses - {id});
    }
  }
}
