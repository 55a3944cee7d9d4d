/** The status report: a second computation of the plan's counts, by id rather
    than by position. */
module Readonly {
  import opened Model
  import opened StateValidate

  /** The row recorded under an id; the last one wins, as in a dictionary. */
  function ById(rows: seq<HistoryRow>, id: string): Option<HistoryRow> {
    if rows == [] then None
    else if rows[|rows| - 1].id == id then Some(rows[|rows| - 1])
    else ById(rows[..|rows| - 1], id)
  }

  datatype Counts = Counts(success: nat, pending: nat, activeId: Option<string>)

  /** With unique ids, looking a row up by id is membership. */
  lemma {:induction false} ByIdFinds(rows: seq<HistoryRow>, id: string)
    ensures ById(rows, id).Some? ==> ById(rows, id).value in rows && ById(rows, id).value.id == id
    ensures ById(rows, id).None? <==> forall i | 0 <= i < |rows| :: rows[i].id != id
  {
    if rows != [] {
      ByIdFinds(rows[..|rows| - 1], id);
    }
  }

  /** In a shaped history that agrees with the manifest, the row of the unit at
      place `n` is the row at place `n`, however the rows were delivered. */
  lemma {:induction false} RowByIdIsRowByPosition(history: seq<HistoryRow>, units: seq<Unit>, n: nat)
    requires WellFormedCapture(units) && Shaped(Ordered(history)) && Agrees(Ordered(history), units) && n < |units|
    ensures ById(history, units[n].id) == if n < |Ordered(history)| then Some(Ordered(history)[n]) else None
  {
    var rows := Ordered(history);
    OrderedIsSortedPermutation(history);
    ByIdFinds(history, units[n].id);
    forall i | 0 <= i < |rows| ensures rows[i].id == units[i].id {
    }
    assert multiset(rows) == multiset(history);
    assert forall row :: row in multiset(history) <==> row in history;
    assert forall row :: row in multiset(rows) <==> row in rows;
    if n < |rows| {
      assert rows[n] in rows && rows[n] in history && rows[n].id == units[n].id;
      assert ById(history, units[n].id).Some?;
    }
    var found := ById(history, units[n].id);
    if found.Some? {
      var i :| 0 <= i < |rows| && rows[i] == found.value;
      assert units[i].id == units[n].id;
    }
  }

  /** Count a report the way `status` does. */
  method Fill(units: seq<Unit>, history: seq<HistoryRow>) returns (c: Counts)
    requires WellFormedCapture(units)
    ensures Shaped(Ordered(history)) && Agrees(Ordered(history), units) ==>
              && c.success == Succeeded(Ordered(history))
              && c.pending == |units| - Succeeded(Ordered(history))
              && c.activeId == Owner(Ordered(history))
  {
    c := Counts(0, 0, None);
    ghost var rows := Ordered(history);
    OrderedIsSortedPermutation(history);
    for n := 0 to |units|
      invariant c.success + c.pending == n
      invariant Shaped(rows) && Agrees(rows, units) ==>
                  && c.success == (if n <= Succeeded(rows) then n else Succeeded(rows))
                  && c.activeId == (if n <= Succeeded(rows) then None else Owner(rows))
    {
      var row := ById(history, units[n].id);
      if Shaped(rows) && Agrees(rows, units) {
        RowByIdIsRowByPosition(history, units, n);
        assert n < |rows| ==> ValidRow(rows[n]);
      }
      if row.None? {
        c := c.(pending := c.pending + 1);
      } else if row.value.status.SUCCESS? {
        c := c.(success := c.success + 1);
      } else {
        c := c.(pending := c.pending + 1, activeId := Some(row.value.id));
      }
    }
  }

  /** Whenever a plan exists, the report computed by id agrees with it. */
  method StatusAgreesWithPlan(units: seq<Unit>, snapshot: Snapshot) returns (r: Result<Plan>, c: Counts)
    requires WellFormedCapture(units)
    ensures r.Returned? ==>
              && c.success == r.value.successCount
              && c.pending == |r.value.pending|
              && c.activeId == (if r.value.active.Some? then Some(r.value.active.value.id) else None)
  {
    r := BuildPlan(units, snapshot);
    c := Fill(units, snapshot.history);
  }
}
