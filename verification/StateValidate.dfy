/** The pure referee: it decides, from a snapshot and a captured manifest alone,
    whether a run may proceed and what it has left to do. */
module StateValidate {
  import opened Model

  // ---------------------------------------------------------------- ordering

  function Insert(rows: seq<HistoryRow>, row: HistoryRow): seq<HistoryRow> {
    if rows == [] || rows[|rows| - 1].seqno <= row.seqno then rows + [row]
    else Insert(rows[..|rows| - 1], row) + [rows[|rows| - 1]]
  }

  /** The rows in stable order of position. */
  function Ordered(rows: seq<HistoryRow>): seq<HistoryRow> {
    if rows == [] then [] else Insert(Ordered(rows[..|rows| - 1]), rows[|rows| - 1])
  }

  ghost predicate InKeyOrder(rows: seq<HistoryRow>) {
    forall i, j | 0 <= i < j < |rows| :: rows[i].seqno <= rows[j].seqno
  }

  lemma {:induction false} InsertKeeps(rows: seq<HistoryRow>, row: HistoryRow)
    requires InKeyOrder(rows)
    ensures InKeyOrder(Insert(rows, row))
    ensures multiset(Insert(rows, row)) == multiset(rows) + multiset{row}
    ensures |Insert(rows, row)| == |rows| + 1
  {
    if rows == [] || rows[|rows| - 1].seqno <= row.seqno {
      return;
    }
    var front, last := rows[..|rows| - 1], rows[|rows| - 1];
    assert rows == front + [last];
    InsertKeeps(front, row);
    var r := Insert(front, row);
    forall i | 0 <= i < |r|
      ensures r[i].seqno <= last.seqno
    {
      assert r[i] in multiset(r);
      assert r[i] in front || r[i] == row;
    }
  }

  /** Ordering neither adds nor loses a row, and yields ascending positions. */
  lemma {:induction false} OrderedIsSortedPermutation(rows: seq<HistoryRow>)
    ensures InKeyOrder(Ordered(rows))
    ensures multiset(Ordered(rows)) == multiset(rows)
    ensures |Ordered(rows)| == |rows|
  {
    if rows != [] {
      var front, last := rows[..|rows| - 1], rows[|rows| - 1];
      assert rows == front + [last];
      OrderedIsSortedPermutation(front);
      InsertKeeps(Ordered(front), last);
    }
  }

  lemma {:induction false} OrderedIsIdentityInKeyOrder(rows: seq<HistoryRow>)
    requires InKeyOrder(rows)
    ensures Ordered(rows) == rows
  {
    if rows != [] {
      var front, last := rows[..|rows| - 1], rows[|rows| - 1];
      assert rows == front + [last];
      OrderedIsIdentityInKeyOrder(front);
    }
  }

  // ------------------------------------------------------------------- shape

  /** One row is internally consistent. */
  predicate ValidRow(row: HistoryRow) {
    && (row.status.ACTIVE? || row.status.SUCCESS?)
    && (row.language.SQL? || row.language.PYTHON?)
    && (row.mode.ATOMIC? || row.mode.RESTARTABLE?)
    && SupportedFingerprint(row.fingerprint)
    && SupportedFingerprint(row.firstFingerprint)
    && (row.mode.RESTARTABLE? ==> row.attempt.Some? && row.attempt.value >= 1)
    && (row.status.ACTIVE? ==> row.mode.RESTARTABLE? && row.finishedAt.None? && row.startedAt.Some?)
    && (row.status.SUCCESS? ==> row.finishedAt.Some?)
    && (row.mode.ATOMIC? ==> row.attempt.None?)
  }

  /** Successful rows at 1..k, at most one ACTIVE row and only at k+1, no id twice. */
  ghost predicate Shaped(rows: seq<HistoryRow>) {
    && (forall i | 0 <= i < |rows| :: rows[i].seqno == i + 1 && ValidRow(rows[i]))
    && (forall i, j | 0 <= i < j < |rows| :: rows[i].id != rows[j].id)
    && (forall i | 0 <= i < |rows| - 1 :: rows[i].status.SUCCESS?)
  }

  predicate ActiveLast(rows: seq<HistoryRow>) {
    rows != [] && rows[|rows| - 1].status.ACTIVE?
  }

  /** The migration progress may belong to: the ACTIVE one. */
  function Owner(rows: seq<HistoryRow>): Option<string> {
    if ActiveLast(rows) then Some(rows[|rows| - 1].id) else None
  }

  ghost predicate DistinctKeys(progress: seq<ProgressRow>) {
    forall i, j | 0 <= i < j < |progress| ::
      (progress[i].id, progress[i].key) != (progress[j].id, progress[j].key)
  }

  /** Every checkpoint is a distinct, non-empty entry of the ACTIVE migration. */
  ghost predicate ProgressShaped(rows: seq<HistoryRow>, progress: seq<ProgressRow>) {
    && DistinctKeys(progress)
    && (forall i | 0 <= i < |progress| ::
          Owner(rows) == Some(progress[i].id) && progress[i].value != "")
  }

  /** What the referee must accept, said without any of its loops. */
  ghost predicate WellShaped(snapshot: Snapshot) {
    && (snapshot.layout.Some? ==> snapshot.layout.value == LAYOUT_VERSION)
    && Shaped(Ordered(snapshot.history))
    && ProgressShaped(Ordered(snapshot.history), snapshot.progress)
  }

  function ValidateRow(row: HistoryRow): (o: Outcome)
    ensures o.Done? <==> ValidRow(row)
    ensures o.Raised? ==> o.error.MetadataDamaged?
  {
    if !(row.status.ACTIVE? || row.status.SUCCESS?) then Raised(MetadataDamaged("status"))
    else if !(row.language.SQL? || row.language.PYTHON?) then Raised(MetadataDamaged("language"))
    else if !(row.mode.ATOMIC? || row.mode.RESTARTABLE?) then Raised(MetadataDamaged("mode"))
    else if row.fingerprint == "" || !SupportedFingerprint(row.fingerprint) then
      Raised(MetadataDamaged("fingerprint"))
    else if row.firstFingerprint == "" || !SupportedFingerprint(row.firstFingerprint) then
      Raised(MetadataDamaged("first_fingerprint"))
    else if row.status.ACTIVE? then
      if !row.mode.RESTARTABLE? then Raised(MetadataDamaged("ACTIVE implies restartable"))
      else if row.attempt.None? || row.attempt.value < 1 then Raised(MetadataDamaged("attempt"))
      else if row.finishedAt.Some? then Raised(MetadataDamaged("completion time"))
      else if row.startedAt.None? then Raised(MetadataDamaged("start time"))
      else Done
    else if row.finishedAt.None? then Raised(MetadataDamaged("completion time"))
    else if row.mode.ATOMIC? && row.attempt.Some? then Raised(MetadataDamaged("attempt"))
    else if row.mode.RESTARTABLE? && (row.attempt.None? || row.attempt.value < 1) then
      Raised(MetadataDamaged("attempt"))
    else Done
  }

  function Successes(rows: seq<HistoryRow>): (n: nat)
    ensures n <= |rows|
  {
    if rows == [] then 0
    else Successes(rows[..|rows| - 1]) + if rows[|rows| - 1].status.SUCCESS? then 1 else 0
  }

  function Actives(rows: seq<HistoryRow>): nat {
    if rows == [] then 0
    else Actives(rows[..|rows| - 1]) + if rows[|rows| - 1].status.ACTIVE? then 1 else 0
  }

  lemma {:induction false} AllSuccess(rows: seq<HistoryRow>)
    requires forall i | 0 <= i < |rows| :: rows[i].status.SUCCESS?
    ensures Successes(rows) == |rows| && Actives(rows) == 0
  {
    if rows != [] {
      AllSuccess(rows[..|rows| - 1]);
    }
  }

  lemma {:induction false} EveryRowCounted(rows: seq<HistoryRow>)
    requires forall i | 0 <= i < |rows| :: rows[i].status.ACTIVE? || rows[i].status.SUCCESS?
    ensures Successes(rows) + Actives(rows) == |rows|
  {
    if rows != [] {
      EveryRowCounted(rows[..|rows| - 1]);
    }
  }

  lemma {:induction false} ActiveIsCounted(rows: seq<HistoryRow>, a: int)
    requires 0 <= a < |rows| && rows[a].status.ACTIVE?
    ensures Actives(rows) >= 1
  {
    if a < |rows| - 1 {
      ActiveIsCounted(rows[..|rows| - 1], a);
    }
  }

  /** Two different ACTIVE rows are counted as at least two. */
  lemma {:induction false} TwoActivesAreCounted(rows: seq<HistoryRow>, a: int, b: int)
    requires 0 <= a < b < |rows| && rows[a].status.ACTIVE? && rows[b].status.ACTIVE?
    ensures Actives(rows) >= 2
  {
    var front := rows[..|rows| - 1];
    if b < |rows| - 1 {
      TwoActivesAreCounted(front, a, b);
    } else {
      ActiveIsCounted(front, a);
    }
  }

  /** The ACTIVE row found by the scan, with its place. */
  method FindActive(rows: seq<HistoryRow>) returns (found: Option<int>, successes: nat, actives: nat)
    ensures successes == Successes(rows) && actives == Actives(rows)
    ensures found.Some? ==> 0 <= found.value < |rows| && rows[found.value].status.ACTIVE?
    ensures found.None? ==> forall i | 0 <= i < |rows| :: !rows[i].status.ACTIVE?
  {
    found, successes, actives := None, 0, 0;
    for n := 0 to |rows|
      invariant successes == Successes(rows[..n]) && actives == Actives(rows[..n])
      invariant found.Some? ==> 0 <= found.value < n && rows[found.value].status.ACTIVE?
      invariant found.None? ==> forall i | 0 <= i < n :: !rows[i].status.ACTIVE?
    {
      assert rows[..n + 1][..n] == rows[..n];
      if rows[n].status.SUCCESS? {
        successes := successes + 1;
      } else if rows[n].status.ACTIVE? {
        actives := actives + 1;
        if found.None? {
          found := Some(n);
        }
      }
    }
    assert rows[..|rows|] == rows;
  }

  /** The counting rule of the referee is exactly "the ACTIVE row comes last". */
  lemma {:induction false} CountingRuleIsPrefixRule(rows: seq<HistoryRow>, found: Option<int>)
    requires forall i | 0 <= i < |rows| :: rows[i].seqno == i + 1 && ValidRow(rows[i])
    requires found.Some? ==> 0 <= found.value < |rows| && rows[found.value].status.ACTIVE?
    requires found.None? ==> forall i | 0 <= i < |rows| :: !rows[i].status.ACTIVE?
    ensures (Actives(rows) <= 1 && (found.Some? ==> found.value + 1 == Successes(rows) + 1))
            <==> (forall i | 0 <= i < |rows| - 1 :: rows[i].status.SUCCESS?)
  {
    hide SupportedFingerprint;
    EveryRowCounted(rows);
    if forall i | 0 <= i < |rows| - 1 :: rows[i].status.SUCCESS? {
      if rows != [] {
        AllSuccess(rows[..|rows| - 1]);
      }
    } else {
      var i :| 0 <= i < |rows| - 1 && !rows[i].status.SUCCESS?;
      assert ValidRow(rows[i]);
      ActiveIsCounted(rows, i);
      if Actives(rows) <= 1 {
        if found.value != i {
          TwoActivesAreCounted(rows, if i < found.value then i else found.value, if i < found.value then found.value else i);
        }
      }
    }
  }

  /** Positions and identities: unique, positive, consecutive from one. */
  method CheckPositions(rows: seq<HistoryRow>) returns (o: Outcome)
    ensures o.Done? <==> && (forall i | 0 <= i < |rows| :: rows[i].seqno == i + 1)
                         && (forall i, j | 0 <= i < j < |rows| :: rows[i].id != rows[j].id)
    ensures o.Raised? ==> o.error.MetadataDamaged?
  {
    var seenSeq: map<int, string> := map[];
    var seenIds: map<string, int> := map[];
    for n := 0 to |rows|
      invariant forall p :: p in seenSeq <==> exists i :: 0 <= i < n && rows[i].seqno == p
      invariant forall d :: d in seenIds <==> exists i :: 0 <= i < n && rows[i].id == d
      invariant forall i, j | 0 <= i < j < n :: rows[i].id != rows[j].id
    {
      var row := rows[n];
      if row.seqno < 1 {
        return Raised(MetadataDamaged("non-positive position"));
      }
      if row.seqno in seenSeq {
        return Raised(MetadataDamaged("position used twice"));
      }
      seenSeq := seenSeq[row.seqno := row.id];
      if row.id in seenIds {
        return Raised(MetadataDamaged("duplicate migration id"));
      }
      seenIds := seenIds[row.id := row.seqno];
    }
    for n := 0 to |rows|
      invariant forall i | 0 <= i < n :: rows[i].seqno == i + 1
    {
      if rows[n].seqno != n + 1 {
        return Raised(MetadataDamaged("positions are not consecutive"));
      }
    }
    return Done;
  }

  method ValidateRows(rows: seq<HistoryRow>) returns (o: Outcome)
    ensures o.Done? <==> forall i | 0 <= i < |rows| :: ValidRow(rows[i])
    ensures o.Raised? ==> o.error.MetadataDamaged?
  {
    for n := 0 to |rows|
      invariant forall i | 0 <= i < n :: ValidRow(rows[i])
    {
      :- ValidateRow(rows[n]);
    }
    return Done;
  }

  /** The rows by id. */
  method RowsById(rows: seq<HistoryRow>) returns (byId: map<string, HistoryRow>)
    requires forall i, j | 0 <= i < j < |rows| :: rows[i].id != rows[j].id
    ensures forall d :: d in byId <==> exists i :: 0 <= i < |rows| && rows[i].id == d
    ensures forall i | 0 <= i < |rows| :: rows[i].id in byId && byId[rows[i].id] == rows[i]
  {
    byId := map[];
    for n := 0 to |rows|
      invariant forall d :: d in byId <==> exists i :: 0 <= i < n && rows[i].id == d
      invariant forall i | 0 <= i < n :: rows[i].id in byId && byId[rows[i].id] == rows[i]
    {
      byId := byId[rows[n].id := rows[n]];
    }
  }

  /** The ACTIVE row of a shaped history is its last, so it is the one whose id
      the owner's is. */
  lemma {:induction false} OwnerIsActive(rows: seq<HistoryRow>, at: nat)
    requires Shaped(rows) && at < |rows|
    ensures !rows[at].status.SUCCESS? <==> Owner(rows) == Some(rows[at].id)
  {
    hide SupportedFingerprint;
    assert ValidRow(rows[at]);
  }

  lemma {:induction false} NextProgress(rows: seq<HistoryRow>, progress: seq<ProgressRow>, n: nat)
    requires n < |progress| && ProgressShaped(rows, progress[..n])
    ensures ProgressShaped(rows, progress[..n + 1]) <==>
              && Owner(rows) == Some(progress[n].id) && progress[n].value != ""
              && forall i | 0 <= i < n :: (progress[i].id, progress[i].key) != (progress[n].id, progress[n].key)
  {
    var some := progress[..n + 1];
    assert some[..n] == progress[..n] && some[n] == progress[n];
    assert forall i | 0 <= i < n :: some[i] == progress[..n][i];
  }

  lemma {:induction false} ProgressPrefix(rows: seq<HistoryRow>, progress: seq<ProgressRow>, n: nat)
    requires n <= |progress| && ProgressShaped(rows, progress)
    ensures ProgressShaped(rows, progress[..n])
  {
  }

  /** Progress rows against a history already known to be shaped. */
  method ValidateProgress(progress: seq<ProgressRow>, rows: seq<HistoryRow>) returns (o: Outcome)
    requires Shaped(rows)
    ensures o.Done? <==> ProgressShaped(rows, progress)
    ensures o.Raised? ==> o.error.MetadataDamaged?
  {
    var byId := RowsById(rows);
    hide Shaped, ProgressShaped;
    assert ProgressShaped(rows, progress[..0]) by {
      NoProgress(rows);
    }
    var seen: set<(string, string)> := {};
    for n := 0 to |progress|
      invariant forall k :: k in seen <==> exists i :: 0 <= i < n && (progress[i].id, progress[i].key) == k
      invariant ProgressShaped(rows, progress[..n])
    {
      var entry := progress[n];
      NextProgress(rows, progress, n);
      if ProgressShaped(rows, progress) {
        ProgressPrefix(rows, progress, n + 1);
      }
      if (entry.id, entry.key) in seen {
        return Raised(MetadataDamaged("duplicate progress key"));
      }
      seen := seen + {(entry.id, entry.key)};
      if entry.id !in byId {
        return Raised(MetadataDamaged("progress references an unknown migration"));
      }
      ghost var at :| 0 <= at < |rows| && rows[at].id == entry.id;
      OwnerIsActive(rows, at);
      if byId[entry.id].status.SUCCESS? {
        return Raised(MetadataDamaged("progress attached to a successful migration"));
      }
      if entry.value == "" {
        return Raised(MetadataDamaged("empty progress value"));
      }
    }
    assert progress[..|progress|] == progress;
    return Done;
  }

  lemma {:induction false} NoProgress(rows: seq<HistoryRow>)
    ensures ProgressShaped(rows, [])
  {
  }

  /** The referee's shape check accepts exactly the well-shaped snapshots, and
      refuses every other one as damage. */
  method ValidateSnapshotShape(snapshot: Snapshot) returns (o: Outcome)
    ensures o.Done? <==> WellShaped(snapshot)
    ensures o.Raised? ==> o.error.MetadataDamaged?
  {
    if snapshot.layout.Some? && snapshot.layout.value != LAYOUT_VERSION {
      return Raised(MetadataDamaged("layout_version"));
    }
    var rows := Ordered(snapshot.history);
    :- CheckPositions(rows);
    :- ValidateRows(rows);
    var found, successes, actives := FindActive(rows);
    CountingRuleIsPrefixRule(rows, found);
    if actives > 1 {
      return Raised(MetadataDamaged("more than one ACTIVE row"));
    }
    if found.Some? && rows[found.value].seqno != successes + 1 {
      return Raised(MetadataDamaged("ACTIVE must be the next position"));
    }
    o := ValidateProgress(snapshot.progress, rows);
  }

  // -------------------------------------------------------------------- plan

  datatype Plan = Plan(
    successCount: nat,
    active: Option<HistoryRow>,
    pending: seq<Unit>,
    activeChanged: bool)

  /** A successful row is the published unit, unchanged. */
  predicate Unchanged(row: HistoryRow, unit: Unit) {
    row.id == unit.id && row.language == unit.language && row.mode == unit.mode && row.fingerprint == unit.fingerprint
  }

  /** An ACTIVE row may be resumed, possibly as an amended definition. */
  predicate Resumable(row: HistoryRow, unit: Unit) {
    && row.id == unit.id
    && (row.language != unit.language ==> row.fingerprint != unit.fingerprint)
    && unit.mode.RESTARTABLE?
  }

  /** The ordered history is a prefix of the manifest. */
  ghost predicate Agrees(rows: seq<HistoryRow>, units: seq<Unit>) {
    && |rows| <= |units|
    && (forall i | 0 <= i < |rows| ::
          if rows[i].status.ACTIVE? then Resumable(rows[i], units[i]) else Unchanged(rows[i], units[i]))
  }

  function Succeeded(rows: seq<HistoryRow>): nat {
    if ActiveLast(rows) then |rows| - 1 else |rows|
  }

  /** What an accepted plan says, by position. */
  ghost predicate Describes(plan: Plan, rows: seq<HistoryRow>, units: seq<Unit>)
    requires |rows| <= |units|
  {
    && plan.successCount == Succeeded(rows)
    && plan.pending == units[Succeeded(rows)..]
    && plan.active == (if ActiveLast(rows) then Some(rows[|rows| - 1]) else None)
    && (plan.activeChanged <==> ActiveLast(rows) && rows[|rows| - 1].fingerprint != units[|rows| - 1].fingerprint)
  }

  /** A shaped history has its ACTIVE row, if any, where the scan finds it. */
  lemma {:induction false} ScanOfShaped(rows: seq<HistoryRow>, found: Option<int>)
    requires Shaped(rows)
    requires found.Some? ==> 0 <= found.value < |rows| && rows[found.value].status.ACTIVE?
    requires found.None? ==> forall i | 0 <= i < |rows| :: !rows[i].status.ACTIVE?
    ensures Successes(rows) == Succeeded(rows)
    ensures found == if ActiveLast(rows) then Some(|rows| - 1) else None
  {
    hide SupportedFingerprint;
    if found.None? {
      forall i | 0 <= i < |rows| ensures rows[i].status.SUCCESS? {
        assert ValidRow(rows[i]);
      }
      AllSuccess(rows);
    } else {
      AllSuccess(rows[..|rows| - 1]);
    }
  }

  /** The successful prefix is compared unit by unit. */
  method CheckPrefix(rows: seq<HistoryRow>, units: seq<Unit>) returns (o: Outcome)
    requires Shaped(rows) && |rows| <= |units|
    ensures o.Done? <==> forall i | 0 <= i < |rows| && !rows[i].status.ACTIVE? :: Unchanged(rows[i], units[i])
    ensures o.Raised? ==> o.error.Validation?
  {
    for n := 0 to |rows|
      invariant forall i | 0 <= i < n && !rows[i].status.ACTIVE? :: Unchanged(rows[i], units[i])
    {
      if rows[n].status.SUCCESS? && !Unchanged(rows[n], units[rows[n].seqno - 1]) {
        return Raised(Validation("successful history is immutable"));
      }
      assert ValidRow(rows[n]);
    }
    return Done;
  }

  /** A shaped history against the manifest. */
  method PlanRows(rows: seq<HistoryRow>, units: seq<Unit>) returns (r: Result<Plan>)
    requires Shaped(rows)
    ensures r.Returned? <==> Agrees(rows, units)
    ensures r.Returned? ==> Describes(r.value, rows, units)
    ensures r.Threw? ==> r.error.Validation?
  {
    if |rows| > |units| {
      return Threw(Validation("history is longer than the manifest"));
    }
    var found, successes, actives := FindActive(rows);
    ScanOfShaped(rows, found);
    var prefix := CheckPrefix(rows, units);
    if prefix.Raised? {
      return Threw(prefix.error);
    }
    if found.None? {
      return Returned(Plan(successes, None, units[successes..], false));
    }
    var row := rows[found.value];
    var unit := units[row.seqno - 1];
    if unit.id != row.id {
      return Threw(Validation("ACTIVE identity"));
    }
    if row.language != unit.language && row.fingerprint == unit.fingerprint {
      return Threw(Validation("ACTIVE language"));
    }
    if !unit.mode.RESTARTABLE? {
      return Threw(Validation("ACTIVE mode"));
    }
    return Returned(Plan(successes, Some(row), units[successes..], row.fingerprint != unit.fingerprint));
  }

  /** Every recorded row, field by field, against the unit at its position: a
      successful one is immutable, an ACTIVE one keeps its id and its mode and
      changes its language only together with its fingerprint. */
  ghost predicate RowsFit(rows: seq<HistoryRow>, units: seq<Unit>) {
    forall row | row in rows ::
      && 1 <= row.seqno <= |units|
      && var unit := units[row.seqno - 1];
      && row.id == unit.id
      && (row.status == SUCCESS ==> row.language == unit.language && row.mode == unit.mode && row.fingerprint == unit.fingerprint)
      && (row.status == ACTIVE ==> unit.mode == RESTARTABLE && (row.language == unit.language || row.fingerprint != unit.fingerprint))
  }

  lemma {:induction false} SameRows(rows: seq<HistoryRow>, row: HistoryRow)
    ensures row in rows <==> row in Ordered(rows)
  {
    OrderedIsSortedPermutation(rows);
    assert row in rows <==> multiset(rows)[row] > 0;
    assert row in Ordered(rows) <==> multiset(Ordered(rows))[row] > 0;
  }

  /** For a shaped history that is the prefix rule, whatever order it is read in. */
  lemma {:induction false} AgreementIsFieldwise(history: seq<HistoryRow>, units: seq<Unit>)
    requires Shaped(Ordered(history))
    ensures Agrees(Ordered(history), units) <==> RowsFit(history, units)
  {
    hide SupportedFingerprint, Ordered;
    var rows := Ordered(history);
    if Agrees(rows, units) {
      forall row | row in history
        ensures 1 <= row.seqno <= |units|
        ensures var unit := units[row.seqno - 1];
                && row.id == unit.id
                && (row.status == SUCCESS ==> row.language == unit.language && row.mode == unit.mode && row.fingerprint == unit.fingerprint)
                && (row.status == ACTIVE ==> unit.mode == RESTARTABLE && (row.language == unit.language || row.fingerprint != unit.fingerprint))
      {
        SameRows(history, row);
        var i :| 0 <= i < |rows| && rows[i] == row;
        assert ValidRow(rows[i]);
      }
    }
    if RowsFit(history, units) {
      forall i | 0 <= i < |rows|
        ensures i < |units|
        ensures if rows[i].status.ACTIVE? then Resumable(rows[i], units[i]) else Unchanged(rows[i], units[i])
      {
        SameRows(history, rows[i]);
        assert ValidRow(rows[i]);
      }
      assert rows != [] ==> rows[|rows| - 1].seqno == |rows|;
    }
  }

  /** What a plan says, in terms of the rows it was made from. */
  ghost predicate PlanOf(plan: Plan, history: seq<HistoryRow>, units: seq<Unit>) {
    && plan.successCount <= |units| && plan.pending == units[plan.successCount..]
    && plan.successCount == |history| - (if plan.active.Some? then 1 else 0)
    && (plan.active.Some? ==>
          && plan.active.value in history && plan.active.value.status == ACTIVE && 1 <= plan.active.value.seqno <= |units|
          && (plan.activeChanged <==> plan.active.value.fingerprint != units[plan.active.value.seqno - 1].fingerprint))
    && (plan.active.None? ==> !plan.activeChanged && forall row | row in history :: row.status == SUCCESS)
  }

  lemma {:induction false} DescriptionIsPlain(plan: Plan, history: seq<HistoryRow>, units: seq<Unit>)
    requires Shaped(Ordered(history)) && |Ordered(history)| <= |units| && Describes(plan, Ordered(history), units)
    ensures PlanOf(plan, history, units)
  {
    hide SupportedFingerprint, Ordered;
    OrderedIsSortedPermutation(history);
    var rows := Ordered(history);
    if plan.active.Some? {
      SameRows(history, plan.active.value);
    } else {
      forall row | row in history ensures row.status == SUCCESS {
        SameRows(history, row);
        var i :| 0 <= i < |rows| && rows[i] == row;
        assert ValidRow(rows[i]);
      }
    }
  }

  /** A plan exists exactly for a well-shaped snapshot whose every row fits the unit
      published at its position, and it is the plan those rows determine. */
  method BuildPlan(units: seq<Unit>, snapshot: Snapshot) returns (r: Result<Plan>)
    ensures r.Returned? <==> WellShaped(snapshot) && RowsFit(snapshot.history, units)
    ensures r.Returned? ==> PlanOf(r.value, snapshot.history, units)
    ensures r.Returned? ==> Agrees(Ordered(snapshot.history), units) && Describes(r.value, Ordered(snapshot.history), units)
    ensures r.Threw? ==> if WellShaped(snapshot) then r.error.Validation? else r.error.MetadataDamaged?
  {
    hide RowsFit, PlanOf;
    var shape := ValidateSnapshotShape(snapshot);
    if shape.Raised? {
      return Threw(shape.error);
    }
    AgreementIsFieldwise(snapshot.history, units);
    r := PlanRows(Ordered(snapshot.history), units);
    if r.Returned? {
      DescriptionIsPlain(r.value, snapshot.history, units);
    }
  }

  /** The condition plain `migrate` refuses. */
  function RequireNoRecoveryNeeded(plan: Plan): (o: Outcome)
    ensures o.Done? <==> (plan.active.Some? ==> !plan.activeChanged)
    ensures o.Raised? ==> plan.active.Some? && o.error == RecoveryRequired(plan.active.value.id)
  {
    if !plan.activeChanged || plan.active.None? then Done else Raised(RecoveryRequired(plan.active.value.id))
  }

  /** The unit captured at a position is the row's own, in restartable mode. */
  predicate Restarts(unit: Unit, position: int, row: HistoryRow) {
    row.seqno == position && unit.id == row.id && unit.mode.RESTARTABLE?
  }

  /** `--recover ID` against a plan. */
  function CheckRecoveryAdmission(plan: Plan, units: seq<Unit>, recoverId: string): (o: Outcome)
    ensures o.Done? <==>
              && plan.active.Some? && plan.active.value.id == recoverId && plan.active.value.mode.RESTARTABLE?
              && exists n :: 0 <= n < |units| && Restarts(units[n], n + 1, plan.active.value)
    ensures o.Raised? ==> o.error.Validation?
  {
    assert forall n | 0 <= n < |units| && plan.active.Some? :: Restarts(units[n], n + 1, plan.active.value) ==> n == plan.active.value.seqno - 1;
    if plan.active.None? then Raised(Validation("no ACTIVE migration"))
    else
      var active := plan.active.value;
      if active.id != recoverId then Raised(Validation("not the active migration"))
      else if !(1 <= active.seqno <= |units|) || units[active.seqno - 1].id != active.id then
        Raised(Validation("position"))
      else if !units[active.seqno - 1].mode.RESTARTABLE? || !active.mode.RESTARTABLE? then
        Raised(Validation("mode"))
      else
        assert Restarts(units[active.seqno - 1], active.seqno, active);
        Done
  }

  /** Once a plan exists, position and mode are in order already: recovery is
      admitted exactly for the id of the ACTIVE unit, amended or not. */
  lemma {:induction false} RecoveryOfAPlan(plan: Plan, rows: seq<HistoryRow>, units: seq<Unit>, recoverId: string)
    requires WellFormedCapture(units) && Shaped(rows) && Agrees(rows, units) && Describes(plan, rows, units)
    ensures CheckRecoveryAdmission(plan, units, recoverId).Done? <==> ActiveLast(rows) && rows[|rows| - 1].id == recoverId
  {
    if ActiveLast(rows) {
      var k := |rows| - 1;
      assert ValidRow(rows[k]) && Resumable(rows[k], units[k]);
      assert Restarts(units[k], k + 1, rows[k]);
    }
  }
}
