/** What survives a crash, and the only ways it may change.

    `Step` is the specification of the protocol: every durable transition any
    run may make.  The lemmas below follow whole journeys of such steps, across
    any number of runs; the `Engine` is proved to make no other step. */
module Durable {
  import opened Model
  import opened StateValidate

  /** Application effects are opaque tokens, in the order they were applied. */
  type Write = nat

  datatype MetaObject = HISTORY_TABLE | ACTIVE_INDEX | PROGRESS_TABLE | META_TABLE

  const CREATION_ORDER: seq<MetaObject> := [HISTORY_TABLE, ACTIVE_INDEX, PROGRESS_TABLE, META_TABLE]

  const ALL_OBJECTS: set<MetaObject> := {HISTORY_TABLE, ACTIVE_INDEX, PROGRESS_TABLE, META_TABLE}

  /** Everything in one namespace; `history` is held in primary-key order. */
  datatype Tables = Tables(
    objects: set<MetaObject>,
    marker: Option<int>,
    history: seq<HistoryRow>,
    progress: seq<ProgressRow>,
    app: seq<Write>)

  /** One `migrate` command: the captured manifest and the `--recover` id. */
  datatype Run = Run(units: seq<Unit>, recover: Option<string>)

  function Snap(t: Tables): Snapshot {
    Snapshot(t.history, t.progress, t.marker)
  }

  predicate EmptyNamespace(t: Tables) {
    t.objects == {} && t.marker.None? && t.history == [] && t.progress == []
  }

  /** A row without its last element. */
  function Front<T>(s: seq<T>): seq<T>
    requires s != []
  {
    s[..|s| - 1]
  }

  function Last<T>(s: seq<T>): T
    requires s != []
  {
    s[|s| - 1]
  }

  // ---------------------------------------------------------------- the rows

  function SuccessRow(u: Unit, now: nat): HistoryRow {
    HistoryRow(u.position, u.id, u.fingerprint, u.fingerprint, u.language, u.mode, SUCCESS, None, Some(now), Some(now), Some(now))
  }

  function ActiveRow(u: Unit, now: nat): HistoryRow {
    HistoryRow(u.position, u.id, u.fingerprint, u.fingerprint, u.language, RESTARTABLE, ACTIVE, Some(1), Some(now), Some(now), None)
  }

  function Readmitted(row: HistoryRow, fingerprint: string, language: Language, now: nat): HistoryRow {
    row.(attempt := (if row.attempt.Some? then Some(row.attempt.value + 1) else None),
         fingerprint := fingerprint,
         language := language,
         lastAttemptAt := Some(now))
  }

  function Completed(row: HistoryRow, now: nat): HistoryRow {
    row.(status := SUCCESS, finishedAt := Some(now))
  }

  // --------------------------------------------------------------- the steps

  /** Initialized metadata whose rows the referee accepts. */
  ghost predicate Sound(t: Tables) {
    && t.marker == Some(LAYOUT_VERSION)
    && Shaped(t.history)
    && ProgressShaped(t.history, t.progress)
  }

  /** Same metadata objects and marker. */
  predicate SameLayout(s: Tables, t: Tables) {
    s.objects == t.objects && s.marker == t.marker
  }

  /** The next missing object, in the fixed order. */
  ghost predicate Creates(s: Tables, t: Tables) {
    && s.marker.None? && s.history == [] && s.progress == []
    && exists k | 0 <= k < |CREATION_ORDER| ::
         && CREATION_ORDER[k] !in s.objects
         && (forall j | 0 <= j < k :: CREATION_ORDER[j] in s.objects)
         && t == s.(objects := s.objects + {CREATION_ORDER[k]})
  }

  /** The marker, only over the complete layout. */
  predicate Marks(s: Tables, t: Tables) {
    && s.marker.None? && s.history == [] && s.progress == []
    && ALL_OBJECTS <= s.objects
    && t == s.(marker := Some(LAYOUT_VERSION))
  }

  /** Atomic completion: one step holds the author's work and the new row. */
  ghost predicate Succeeds(run: Run, s: Tables, t: Tables) {
    var n := |s.history|;
    && Sound(s) && Agrees(s.history, run.units) && !ActiveLast(s.history)
    && n < |run.units| && run.units[n].mode.ATOMIC?
    && |t.history| == n + 1 && t.history[..n] == s.history
    && t.history[n].startedAt.Some?
    && t.history[n] == SuccessRow(run.units[n], t.history[n].startedAt.value)
    && t.progress == s.progress && SameLayout(s, t)
  }

  /** First admission of a restartable unit. */
  ghost predicate Admits(run: Run, s: Tables, t: Tables) {
    var n := |s.history|;
    && Sound(s) && Agrees(s.history, run.units) && !ActiveLast(s.history)
    && n < |run.units| && run.units[n].mode.RESTARTABLE?
    && |t.history| == n + 1 && t.history[..n] == s.history
    && t.history[n].startedAt.Some?
    && t.history[n] == ActiveRow(run.units[n], t.history[n].startedAt.value)
    && t == s.(history := t.history)
  }

  /** A further attempt; an amended definition only under `--recover` of it. */
  ghost predicate Readmits(run: Run, s: Tables, t: Tables) {
    && Sound(s) && Agrees(s.history, run.units) && ActiveLast(s.history)
    && var n := |s.history| - 1;
       var row, u := s.history[n], run.units[n];
    && (row.fingerprint != u.fingerprint ==> run.recover == Some(row.id))
    && |t.history| == n + 1 && t.history[..n] == s.history[..n]
    && t.history[n].lastAttemptAt.Some?
    && t.history[n] == Readmitted(row, u.fingerprint, u.language, t.history[n].lastAttemptAt.value)
    && t == s.(history := t.history)
  }

  /** What author code may make durable: application data, and checkpoints of
      the migration that owns them. */
  ghost predicate Authors(owner: Option<string>, s: Tables, t: Tables) {
    && t.history == s.history && SameLayout(s, t)
    && (owner.None? ==> t.progress == s.progress)
    && (owner.Some? ==>
          && (forall r | r in t.progress :: r in s.progress || (r.id == owner.value && r.value != ""))
          && (DistinctKeys(s.progress) ==> DistinctKeys(t.progress)))
  }

  /** Restartable completion: ACTIVE to SUCCESS and its checkpoints gone. */
  ghost predicate Completes(run: Run, s: Tables, t: Tables) {
    && Sound(s) && Agrees(s.history, run.units) && ActiveLast(s.history)
    && var n := |s.history| - 1;
       var row, u := s.history[n], run.units[n];
    && row.fingerprint == u.fingerprint && row.language == u.language
    && |t.history| == n + 1 && t.history[..n] == s.history[..n]
    && t.history[n].finishedAt.Some?
    && t.history[n] == Completed(row, t.history[n].finishedAt.value)
    && t.progress == [] && t.app == s.app && SameLayout(s, t)
  }

  /** Every durable change a run may make. */
  ghost predicate Step(run: Run, s: Tables, t: Tables) {
    || Creates(s, t)
    || Marks(s, t)
    || Succeeds(run, s, t)
    || Admits(run, s, t)
    || Readmits(run, s, t)
    || Authors(Owner(s.history), s, t)
    || Completes(run, s, t)
  }

  // ----------------------------------------------------------- the invariant

  /** Objects exist in creation order: a later one only with every earlier one. */
  ghost predicate CreatedInOrder(objects: set<MetaObject>) {
    forall i, j | 0 <= i < j < |CREATION_ORDER| && CREATION_ORDER[j] in objects :: CREATION_ORDER[i] in objects
  }

  ghost predicate Inv(t: Tables) {
    && CreatedInOrder(t.objects)
    && (t.marker.None? ==> t.history == [] && t.progress == [])
    && (t.marker.Some? ==> ALL_OBJECTS <= t.objects && Sound(t))
  }

  lemma {:induction false} ShapedIsInKeyOrder(rows: seq<HistoryRow>)
    requires Shaped(rows)
    ensures InKeyOrder(rows) && Ordered(rows) == rows
  {
    OrderedIsIdentityInKeyOrder(rows);
  }

  /** The referee accepts every state that satisfies the invariant. */
  lemma {:induction false} InvIsWellShaped(t: Tables)
    requires Inv(t)
    ensures WellShaped(Snap(t))
  {
    ShapedIsInKeyOrder(t.history);
  }

  lemma {:induction false} AppendKeepsShape(rows: seq<HistoryRow>, row: HistoryRow, units: seq<Unit>)
    requires WellFormedCapture(units) && Shaped(rows) && Agrees(rows, units) && !ActiveLast(rows)
    requires |rows| < |units| && row.id == units[|rows|].id && row.seqno == |rows| + 1 && ValidRow(row)
    ensures Shaped(rows + [row])
  {
    hide SupportedFingerprint;
  }

  lemma {:induction false} ReplaceLastKeepsShape(rows: seq<HistoryRow>, row: HistoryRow)
    requires Shaped(rows) && rows != []
    requires row.id == Last(rows).id && row.seqno == |rows| && ValidRow(row)
    ensures Shaped(Front(rows) + [row])
  {
  }

  lemma {:induction false} ProgressHasAnOwner(rows: seq<HistoryRow>, progress: seq<ProgressRow>)
    requires ProgressShaped(rows, progress)
    ensures progress != [] ==> ActiveLast(rows)
  {
    if progress != [] {
      assert Owner(rows) == Some(progress[0].id);
    }
  }

  lemma {:induction false} SucceedsKeepsInv(run: Run, s: Tables, t: Tables)
    requires WellFormedCapture(run.units) && Inv(s) && Succeeds(run, s, t)
    ensures Inv(t)
  {
    var n := |s.history|;
    ProgressHasAnOwner(s.history, s.progress);
    AppendKeepsShape(s.history, t.history[n], run.units);
    assert t.history == s.history + [t.history[n]];
  }

  lemma {:induction false} AdmitsKeepsInv(run: Run, s: Tables, t: Tables)
    requires WellFormedCapture(run.units) && Inv(s) && Admits(run, s, t)
    ensures Inv(t)
  {
    var n := |s.history|;
    ProgressHasAnOwner(s.history, s.progress);
    AppendKeepsShape(s.history, t.history[n], run.units);
    assert t.history == s.history + [t.history[n]];
  }

  lemma {:induction false} ReadmitsKeepsInv(run: Run, s: Tables, t: Tables)
    requires WellFormedCapture(run.units) && Inv(s) && Readmits(run, s, t)
    ensures Inv(t)
  {
    var n := |s.history| - 1;
    assert ValidRow(s.history[n]);
    ReplaceLastKeepsShape(s.history, t.history[n]);
    assert t.history == Front(s.history) + [t.history[n]];
    assert Owner(t.history) == Owner(s.history);
  }

  lemma {:induction false} AuthorsKeepsInv(s: Tables, t: Tables)
    requires Inv(s) && Authors(Owner(s.history), s, t)
    ensures Inv(t)
  {
  }

  lemma {:induction false} CompletesKeepsInv(run: Run, s: Tables, t: Tables)
    requires Inv(s) && Completes(run, s, t)
    ensures Inv(t)
  {
    var n := |s.history| - 1;
    assert ValidRow(s.history[n]);
    ReplaceLastKeepsShape(s.history, t.history[n]);
    assert t.history == Front(s.history) + [t.history[n]];
  }

  /** No step leaves the invariant. */
  lemma {:induction false} StepKeepsInv(run: Run, s: Tables, t: Tables)
    requires WellFormedCapture(run.units) && Inv(s) && Step(run, s, t)
    ensures Inv(t)
  {
    if Succeeds(run, s, t) { SucceedsKeepsInv(run, s, t); }
    else if Admits(run, s, t) { AdmitsKeepsInv(run, s, t); }
    else if Readmits(run, s, t) { ReadmitsKeepsInv(run, s, t); }
    else if Authors(Owner(s.history), s, t) { AuthorsKeepsInv(s, t); }
    else if Completes(run, s, t) { CompletesKeepsInv(run, s, t); }
    else if Creates(s, t) {
      forall i, j | 0 <= i < j < |CREATION_ORDER| && CREATION_ORDER[j] in t.objects
        ensures CREATION_ORDER[i] in t.objects
      {
        var k :| 0 <= k < |CREATION_ORDER| && CREATION_ORDER[k] !in s.objects
          && (forall j | 0 <= j < k :: CREATION_ORDER[j] in s.objects)
          && t == s.(objects := s.objects + {CREATION_ORDER[k]});
      }
    }
  }

  // ---------------------------------------------------------------- journeys

  /** Durable states in order, each reached from the one before by some run. */
  ghost predicate Journey(states: seq<Tables>, runs: seq<Run>) {
    && |states| == |runs| + 1
    && (forall i | 0 <= i < |runs| :: WellFormedCapture(runs[i].units) && Step(runs[i], states[i], states[i + 1]))
  }

  /** Whatever was interrupted, and however often, the referee accepts what is
      there. */
  lemma {:induction false} EveryReachableStateIsAccepted(states: seq<Tables>, runs: seq<Run>, i: nat)
    requires Journey(states, runs) && EmptyNamespace(states[0]) && i < |states|
    ensures Inv(states[i]) && WellShaped(Snap(states[i]))
  {
    if i > 0 {
      EveryReachableStateIsAccepted(states, runs, i - 1);
      StepKeepsInv(runs[i - 1], states[i - 1], states[i]);
    }
    InvIsWellShaped(states[i]);
  }

  /** A row later in a journey that started as `row`. */
  predicate Descends(row: HistoryRow, later: HistoryRow) {
    && later.seqno == row.seqno && later.id == row.id && later.mode == row.mode
    && later.startedAt == row.startedAt && later.firstFingerprint == row.firstFingerprint
    && (row.status.SUCCESS? ==> later == row)
  }

  lemma {:induction false} StepDescends(run: Run, s: Tables, t: Tables, p: nat)
    requires Step(run, s, t) && Inv(s) && p < |s.history|
    ensures p < |t.history| && Descends(s.history[p], t.history[p])
  {
  }

  /** A successful row never changes or moves; an ACTIVE one keeps its identity,
      position, mode, start time and first fingerprint. */
  lemma {:induction false} RowsAreForever(states: seq<Tables>, runs: seq<Run>, i: nat, j: nat, p: nat)
    requires Journey(states, runs) && EmptyNamespace(states[0])
    requires i <= j < |states| && p < |states[i].history|
    ensures p < |states[j].history| && Descends(states[i].history[p], states[j].history[p])
  {
    hide Step, Inv;
    if i < j {
      RowsAreForever(states, runs, i, j - 1, p);
      EveryReachableStateIsAccepted(states, runs, j - 1);
      StepDescends(runs[j - 1], states[j - 1], states[j], p);
    }
  }

  /** A definition changes only under `--recover` with its own id. */
  lemma {:induction false} AmendedOnlyByRecovery(states: seq<Tables>, runs: seq<Run>, i: nat, p: nat)
    requires Journey(states, runs) && EmptyNamespace(states[0])
    requires i < |runs| && p < |states[i].history|
    ensures p < |states[i + 1].history|
    ensures (states[i].history[p].fingerprint, states[i].history[p].language)
            != (states[i + 1].history[p].fingerprint, states[i + 1].history[p].language)
            ==> runs[i].recover == Some(states[i].history[p].id)
  {
  }

  /** Durable admissions of the row at `p` (counting from zero). */
  ghost function Admissions(states: seq<Tables>, runs: seq<Run>, p: nat): nat
    requires Journey(states, runs)
    decreases |runs|
  {
    if runs == [] then 0
    else
      var n := |runs| - 1;
      var earlier := Admissions(states[..n + 1], runs[..n], p);
      var s, t := states[n], states[n + 1];
      if (Admits(runs[n], s, t) && |s.history| == p) || (Readmits(runs[n], s, t) && |s.history| == p + 1)
      then earlier + 1 else earlier
  }

  ghost predicate CountedAttempts(t: Tables, p: nat, admissions: nat) {
    if p < |t.history| && t.history[p].mode.RESTARTABLE? then t.history[p].attempt == Some(admissions as int)
    else admissions == 0
  }

  lemma {:induction false} StepCounts(run: Run, s: Tables, t: Tables, p: nat, before: nat)
    requires WellFormedCapture(run.units) && Step(run, s, t) && Inv(s) && CountedAttempts(s, p, before)
    ensures CountedAttempts(t, p,
              if (Admits(run, s, t) && |s.history| == p) || (Readmits(run, s, t) && |s.history| == p + 1)
              then before + 1 else before)
  {
    if p < |s.history| {
      StepDescends(run, s, t, p);
      assert ValidRow(s.history[p]);
    }
    if Readmits(run, s, t) || Completes(run, s, t) {
      if p < |s.history| - 1 {
        assert t.history[p] == t.history[..|s.history| - 1][p] == s.history[..|s.history| - 1][p];
      }
    } else if (Succeeds(run, s, t) || Admits(run, s, t)) && p < |s.history| {
      assert t.history[p] == t.history[..|s.history|][p];
    }
  }

  /** A restartable row's attempt number is the number of its durable admissions. */
  lemma {:induction false} AttemptsAreAdmissions(states: seq<Tables>, runs: seq<Run>, p: nat)
    requires Journey(states, runs) && EmptyNamespace(states[0])
    ensures CountedAttempts(Last(states), p, Admissions(states, runs, p))
    decreases |runs|
  {
    hide Step, Inv, Admits, Readmits;
    if runs != [] {
      var n := |runs| - 1;
      AttemptsAreAdmissions(states[..n + 1], runs[..n], p);
      EveryReachableStateIsAccepted(states, runs, n);
      StepCounts(runs[n], states[n], states[n + 1], p, Admissions(states[..n + 1], runs[..n], p));
    }
  }

  // ------------------------------------------------------------ never wedged

  /** The recorded history is exactly the published prefix. */
  ghost predicate Published(rows: seq<HistoryRow>, units: seq<Unit>) {
    && |rows| <= |units|
    && forall i | 0 <= i < |rows| :: Unchanged(rows[i], units[i])
  }

  /** The manifest only ever grows at its end. */
  ghost predicate AppendOnly(runs: seq<Run>) {
    forall i, j | 0 <= i <= j < |runs| :: runs[i].units <= runs[j].units
  }

  lemma {:induction false} StepKeepsPublished(run: Run, s: Tables, t: Tables)
    requires WellFormedCapture(run.units) && Inv(s) && Step(run, s, t) && Published(s.history, run.units)
    ensures Published(t.history, run.units)
  {
    if Readmits(run, s, t) || Completes(run, s, t) {
      var n := |s.history| - 1;
      forall i | 0 <= i < |t.history| ensures Unchanged(t.history[i], run.units[i]) {
        assert Unchanged(s.history[i], run.units[i]);
        if i < n {
          assert t.history[i] == t.history[..n][i] == s.history[..n][i];
        } else {
          assert ValidRow(s.history[i]);
        }
      }
    } else if Succeeds(run, s, t) || Admits(run, s, t) {
      forall i | 0 <= i < |s.history| ensures t.history[i] == s.history[i] {
        assert t.history[i] == t.history[..|s.history|][i];
      }
    }
  }

  /** If every capture extends the ones before it, then whatever any of their
      runs left behind is, for any later capture, the published prefix: the
      referee plans it and asks for no recovery. */
  lemma {:induction false} NeverWedged(states: seq<Tables>, runs: seq<Run>, i: nat, units: seq<Unit>)
    requires Journey(states, runs) && EmptyNamespace(states[0]) && AppendOnly(runs) && i < |states|
    requires i > 0 ==> runs[i - 1].units <= units
    ensures WellShaped(Snap(states[i])) && Published(states[i].history, units)
    ensures Agrees(Ordered(states[i].history), units)
    ensures ActiveLast(states[i].history) ==>
              Last(states[i].history).fingerprint == units[|states[i].history| - 1].fingerprint
  {
    EveryReachableStateIsAccepted(states, runs, i);
    if i > 0 {
      NeverWedged(states, runs, i - 1, runs[i - 1].units);
      EveryReachableStateIsAccepted(states, runs, i - 1);
      StepKeepsPublished(runs[i - 1], states[i - 1], states[i]);
    }
    ShapedIsInKeyOrder(states[i].history);
    forall k | 0 <= k < |states[i].history| ensures
      if states[i].history[k].status.ACTIVE? then Resumable(states[i].history[k], units[k]) else Unchanged(states[i].history[k], units[k])
    {
      assert Unchanged(states[i].history[k], units[k]);
      assert ValidRow(states[i].history[k]);
    }
  }
}
