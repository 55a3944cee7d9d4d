/** One `migrate` run: it admits, executes and completes units, and makes no
    durable step the protocol does not allow. */
module Engine {
  import opened Model
  import opened StateValidate
  import opened Durable
  import opened Driver
  import opened Latch
  import opened Metadata
  import opened Adapter
  import opened Programs
  import opened Context

  /** A unit's entry file. */
  datatype Source =
    | SqlFile(procedural: bool, legal: bool, write: Option<Write>)
    | PythonFile(author: Author)

  /** Author code of the unit at `position` was entered in state `durable`, with the
      latch half-set or not, and made these clean exits of batches. */
  datatype Entry = Entry(position: nat, attempt: Option<int>, durable: Tables, half: bool, exits: seq<Exited>)

  /** What a source makes of the data it finds if nothing fails; nothing if it
      would not run through. */
  ghost function PlaySource(source: Source, unit: Unit, store: Store): Option<Store> {
    match source
    case SqlFile(_, legal, write) => if legal then Some(Written(store, write)) else None
    case PythonFile(author) =>
      var restartable := unit.mode.RESTARTABLE?;
      var v := Play(author.next, unit.id, restartable, [], EntryView(restartable, store), author.budget(store));
      if v.Some? then Some(Seen(v.value)) else None
  }

  /** The data that units from `k` on leave behind, one after the other. */
  ghost function PlayedOut(units: seq<Unit>, sources: seq<Source>, k: nat, store: Store): Option<Store>
    requires |units| == |sources|
    decreases |units| - k
  {
    if k >= |units| then Some(store)
    else
      var played := PlaySource(sources[k], units[k], store);
      if played.Some? then PlayedOut(units, sources, k + 1, Store(played.value.app, [])) else None
  }

  lemma {:induction false} PlaysOn(units: seq<Unit>, sources: seq<Source>, k: nat, store: Store)
    requires |units| == |sources|
    ensures k >= |units| ==> PlayedOut(units, sources, k, store) == Some(store)
    ensures k < |units| && PlayedOut(units, sources, k, store).Some? ==>
              var played := PlaySource(sources[k], units[k], store);
              played.Some? && PlayedOut(units, sources, k + 1, Store(played.value.app, [])) == PlayedOut(units, sources, k, store)
  {
  }

  ghost predicate BracketedSource(source: Source, store: Store) {
    source.PythonFile? ==> Bracketed(source.author.next, [], None, source.author.budget(store))
  }

  ghost predicate CandidSource(source: Source, store: Store) {
    source.PythonFile? ==> Candid(source.author.next, [], false, source.author.budget(store))
  }

  ghost predicate StraightSource(source: Source, store: Store) {
    source.PythonFile? ==> Straight(source.author.next, [], false, source.author.budget(store))
  }

  // ------------------------------------------------- the course of the data

  /** Durable data that a source passes through if nothing fails. */
  ghost predicate PassesSource(source: Source, unit: Unit, store: Store, x: Store) {
    var restartable := unit.mode.RESTARTABLE?;
    || x == store
    || match source
       case SqlFile(_, _, write) => restartable && x == Written(store, write)
       case PythonFile(author) =>
         Passes(author.next, unit.id, restartable, [], EntryView(restartable, store), author.budget(store), x)
  }

  ghost predicate SourceTrail(source: Source, unit: Unit, store: Store, before: seq<Tables>, after: seq<Tables>) {
    forall i | |before| <= i < |after| :: PassesSource(source, unit, store, StoreOf(after[i]))
  }

  /** What the data may be, for each number of units done. */
  type Course = seq<iset<Store>>

  /** From data of this kind the unit runs through, to data of the next kind; its
      source is straight, and passes through data of this kind only. */
  ghost predicate Steered(source: Source, unit: Unit, store: Store, here: iset<Store>, there: iset<Store>) {
    var played := PlaySource(source, unit, store);
    && played.Some? && Store(played.value.app, []) in there && StraightSource(source, store)
    && forall x | PassesSource(source, unit, store, x) :: x in here
  }

  ghost predicate Steers(units: seq<Unit>, sources: seq<Source>, course: Course) {
    && |units| == |sources| && |course| == |units| + 1
    && forall k, store | 0 <= k < |units| && store in course[k] :: Steered(sources[k], units[k], store, course[k], course[k + 1])
  }

  ghost predicate InCourse(course: Course, t: Tables) {
    Succeeded(t.history) < |course| && StoreOf(t) in course[Succeeded(t.history)]
  }

  /** The sources steer that course, the run started in it, and no server code ends
      transactions. */
  ghost predicate Guided(severing: bool, units: seq<Unit>, sources: seq<Source>, course: Course, start: Tables) {
    !severing && Steers(units, sources, course) && InCourse(course, start)
  }

  /** Then every durable state is in it, whatever fails. */
  ghost predicate Charted(severing: bool, units: seq<Unit>, sources: seq<Source>, course: Course, trail: seq<Tables>, base: nat)
    requires base < |trail|
  {
    Guided(severing, units, sources, course, trail[base]) ==> forall i | base <= i < |trail| :: InCourse(course, trail[i])
  }

  /** Completing unit `k` with that application data stays in it. */
  ghost predicate Arrives(severing: bool, units: seq<Unit>, sources: seq<Source>, course: Course, start: Tables, k: nat, app: seq<Write>) {
    Guided(severing, units, sources, course, start) ==> k + 1 < |course| && Store(app, []) in course[k + 1]
  }

  lemma {:induction false} ChartedOn(severing: bool, units: seq<Unit>, sources: seq<Source>, course: Course, trail: seq<Tables>, base: nat, t: Tables)
    requires base < |trail| && Charted(severing, units, sources, course, trail, base)
    requires Guided(severing, units, sources, course, trail[base]) && InCourse(course, Last(trail)) ==> InCourse(course, t)
    ensures Charted(severing, units, sources, course, trail + [t], base)
  {
    hide Guided, InCourse;
  }

  lemma {:induction false} ChartedSource(severing: bool, units: seq<Unit>, sources: seq<Source>, course: Course, trail: seq<Tables>, base: nat, k: nat)
    requires base < |trail| && Charted(severing, units, sources, course, trail, base)
    requires Succeeded(Last(trail).history) == k < |units| == |sources| && Guided(severing, units, sources, course, trail[base])
    ensures k + 1 < |course| && Steered(sources[k], units[k], StoreOf(Last(trail)), course[k], course[k + 1])
  {
    hide Steered;
    assert InCourse(course, Last(trail));
  }

  /** While author code runs, whatever it made durable is data its source passes
      through. */
  lemma {:induction false} ChartedAuthor(severing: bool, units: seq<Unit>, sources: seq<Source>, course: Course, a: seq<Tables>, b: seq<Tables>, base: nat, k: nat)
    requires base < |a| && a <= b && Charted(severing, units, sources, course, a, base)
    requires Succeeded(Last(a).history) == k < |units| == |sources|
    requires forall i | |a| <= i < |b| :: b[i].history == Last(a).history
    requires Guided(severing, units, sources, course, a[base]) ==> SourceTrail(sources[k], units[k], StoreOf(Last(a)), a, b)
    ensures Charted(severing, units, sources, course, b, base)
  {
    hide PassesSource, PlaySource, StraightSource, Succeeded;
    if Guided(severing, units, sources, course, a[base]) {
      ChartedSource(severing, units, sources, course, a, base, k);
      forall i | base <= i < |b| ensures InCourse(course, b[i]) {
        if i < |a| {
          assert b[i] == a[i];
        }
      }
    }
  }

  lemma {:induction false} ChartedSame(severing: bool, units: seq<Unit>, sources: seq<Source>, course: Course, a: seq<Tables>, b: seq<Tables>, base: nat)
    requires base < |a| && a <= b && Charted(severing, units, sources, course, a, base)
    requires forall i | |a| <= i < |b| :: Succeeded(b[i].history) == Succeeded(Last(a).history) && StoreOf(b[i]) == StoreOf(Last(a))
    ensures Charted(severing, units, sources, course, b, base)
  {
    hide Steers, Succeeded;
    if Guided(severing, units, sources, course, a[base]) {
      assert InCourse(course, Last(a));
      forall i | base <= i < |b| ensures InCourse(course, b[i]) {
        if i < |a| {
          assert b[i] == a[i];
        }
      }
    }
  }

  /** A completed unit leaves no checkpoints. */
  lemma {:induction false} CompletionInCourse(run: Run, severing: bool, sources: seq<Source>, course: Course, trail: seq<Tables>, base: nat, k: nat, t: Tables)
    requires base < |trail| && Charted(severing, run.units, sources, course, trail, base)
    requires AtUnit(run, k + 1, t) && !ActiveLast(t.history) && Arrives(severing, run.units, sources, course, trail[base], k, t.app)
    ensures Charted(severing, run.units, sources, course, trail + [t], base)
  {
    NoneActiveNoProgress(run, k + 1, t);
    ChartedOn(severing, run.units, sources, course, trail, base, t);
  }

  /** What a SUCCESS row says of the clean exits made under it: each is explained,
      and where no server code ends transactions all of them are durable, provided
      the source leaves batches with an exception only from inside, and provided no
      interrupt fell into a latching -- of which a candid source makes sure. */
  ghost predicate Vouched(source: Source, severing: bool, s: Session, e: Entry) {
    var store := StoreOf(e.durable);
    && (forall b | b in e.exits :: Explained(s, severing, b))
    && (!severing && BracketedSource(source, store)
        && ((CandidSource(source, store) && !e.half) || (!s.half && forall b | b in e.exits :: !b.gap))
        ==> forall b | b in e.exits :: Landed(s.server, b))
  }

  lemma {:induction false} StillVouched(source: Source, severing: bool, a: Session, b: Session, e: Entry)
    requires Vouched(source, severing, a, e) && Onward(a.server, b.server) && a.trail <= b.trail && (a.half ==> b.half)
    ensures Vouched(source, severing, b, e)
  {
    hide Explained, BracketedSource, CandidSource, Ended;
    forall exit | exit in e.exits ensures Explained(b, severing, exit) {
      StillExplained(a, b, severing, exit);
    }
  }

  /** The entries of a run: units from `first` on, one after the other and each
      where it may be entered; of those that became SUCCESS in restartable mode,
      every batch is vouched for.  The latch is half-set at an entry only if a source
      before it was not candid. */
  ghost predicate Entered(run: Run, sources: seq<Source>, severing: bool, s: Session, first: nat, entries: seq<Entry>) {
    && |sources| == |run.units|
    && forall i | 0 <= i < |entries| ::
         && entries[i].position == first + i + 1 && LegalEntry(run, entries[i])
         && (run.units[first + i].mode.RESTARTABLE? && Succeeded(s.server.durable.history) > first + i ==>
               Vouched(sources[first + i], severing, s, entries[i]))
         && (AllCandid(sources, first, entries[..i]) ==> !entries[i].half)
  }

  ghost predicate AllCandid(sources: seq<Source>, first: nat, entries: seq<Entry>) {
    forall j | 0 <= j < |entries| && first + j < |sources| :: CandidSource(sources[first + j], StoreOf(entries[j].durable))
  }

  lemma {:induction false} NoEntryYet(run: Run, sources: seq<Source>, severing: bool, first: nat)
    requires |sources| == |run.units|
    ensures forall s :: Entered(run, sources, severing, s, first, [])
  {
  }

  /** No entry is forgotten while the SUCCESS rows stay what they are, or grow past
      those entered. */
  lemma {:induction false} StillEntered(run: Run, sources: seq<Source>, severing: bool, a: Session, b: Session, first: nat, entries: seq<Entry>)
    requires Entered(run, sources, severing, a, first, entries)
    requires Onward(a.server, b.server) && a.trail <= b.trail && (a.half ==> b.half)
    requires Succeeded(b.server.durable.history) <= Succeeded(a.server.durable.history) || first + |entries| <= Succeeded(a.server.durable.history)
    ensures Entered(run, sources, severing, b, first, entries)
  {
    hide Vouched, CandidSource, Ended, Onward;
    forall i | 0 <= i < |entries|
      ensures first + i < |run.units|
      ensures run.units[first + i].mode.RESTARTABLE? && Succeeded(b.server.durable.history) > first + i ==>
                Vouched(sources[first + i], severing, b, entries[i])
    {
      assert entries[i].position == first + i + 1 && LegalEntry(run, entries[i]);
      if run.units[first + i].mode.RESTARTABLE? && Succeeded(b.server.durable.history) > first + i {
        StillVouched(sources[first + i], severing, a, b, entries[i]);
      }
    }
  }

  lemma {:induction false} OneMoreEntry(run: Run, sources: seq<Source>, severing: bool, s: Session, first: nat, entries: seq<Entry>, e: Entry)
    requires Entered(run, sources, severing, s, first, entries)
    requires e.position == first + |entries| + 1 && LegalEntry(run, e)
    requires run.units[first + |entries|].mode.RESTARTABLE? && Succeeded(s.server.durable.history) > first + |entries| ==>
               Vouched(sources[first + |entries|], severing, s, e)
    requires AllCandid(sources, first, entries) ==> !e.half
    ensures Entered(run, sources, severing, s, first, entries + [e])
  {
    hide Vouched, LegalEntry, CandidSource;
    var longer := entries + [e];
    forall i | 0 <= i < |longer| ensures longer[..i] == if i < |entries| then entries[..i] else entries {
    }
  }

  // ----------------------------------------------------- trails of one run

  ghost predicate StepsFrom(run: Run, trail: seq<Tables>, base: nat) {
    forall i | base <= i < |trail| - 1 :: Step(run, trail[i], trail[i + 1])
  }

  lemma {:induction false} OneMoreStep(run: Run, trail: seq<Tables>, base: nat, t: Tables)
    requires StepsFrom(run, trail, base) && trail != [] && Step(run, Last(trail), t)
    ensures StepsFrom(run, trail + [t], base)
  {
  }

  /** Author steps of the unit that owns the progress are protocol steps, and
      none of them touches the history. */
  lemma {:induction false} AuthorTrailSteps(run: Run, owner: Option<string>, a: seq<Tables>, b: seq<Tables>, base: nat)
    requires AuthorTrail(owner, a, b) && StepsFrom(run, a, base) && StateValidate.Owner(Last(a).history) == owner
    ensures StepsFrom(run, b, base)
    ensures Last(b).history == Last(a).history && SameLayout(Last(a), Last(b))
    ensures forall i | |a| <= i < |b| :: b[i].history == Last(a).history
    ensures Sound(Last(a)) ==> Sound(Last(b))
    decreases |b|
  {
    if |b| == |a| {
      assert a == b;
    } else {
      var shorter := Front(b);
      assert forall i | |a| <= i < |shorter| :: Authors(owner, shorter[i - 1], shorter[i]);
      AuthorTrailSteps(run, owner, a, shorter, base);
      assert Authors(owner, Last(shorter), Last(b));
      OneMoreStep(run, shorter, base, Last(b));
      assert b == shorter + [Last(b)];
      if Sound(Last(a)) {
        AuthorStepSound(owner, Last(shorter), Last(b));
      }
    }
  }

  lemma {:induction false} AuthorStepSound(owner: Option<string>, s: Tables, t: Tables)
    requires Sound(s) && Authors(owner, s, t) && StateValidate.Owner(s.history) == owner
    ensures Sound(t)
  {
  }

  lemma {:induction false} InitTrailSteps(run: Run, a: seq<Tables>, b: seq<Tables>, base: nat)
    requires InitTrail(a, b) && StepsFrom(run, a, base)
    ensures StepsFrom(run, b, base) && Last(b).app == Last(a).app
    ensures forall i | |a| <= i < |b| :: b[i].history == Last(a).history && StoreOf(b[i]) == StoreOf(Last(a))
    decreases |b|
  {
    if |b| > |a| {
      var shorter := Front(b);
      assert forall i | |a| <= i < |shorter| :: Creates(shorter[i - 1], shorter[i]) || Marks(shorter[i - 1], shorter[i]);
      InitTrailSteps(run, a, shorter, base);
      assert Creates(Last(shorter), Last(b)) || Marks(Last(shorter), Last(b));
      OneMoreStep(run, shorter, base, Last(b));
      assert b == shorter + [Last(b)];
    } else {
      assert a == b;
    }
  }

  // --------------------------------------- the UPDATE statements as steps

  /** Exactly one row of a shaped history is ACTIVE under its owner's id. */
  lemma {:induction false} NoActiveAmongSuccesses(rows: seq<HistoryRow>, id: string)
    requires forall i | 0 <= i < |rows| :: rows[i].status.SUCCESS?
    ensures CountActive(rows, id) == 0
  {
    if rows != [] {
      NoActiveAmongSuccesses(rows[..|rows| - 1], id);
    }
  }

  lemma {:induction false} ShapedCount(rows: seq<HistoryRow>)
    requires Shaped(rows) && ActiveLast(rows)
    ensures CountActive(rows, Last(rows).id) == 1
  {
    NoActiveAmongSuccesses(rows[..|rows| - 1], Last(rows).id);
  }

  lemma {:induction false} WithoutOwner(progress: seq<ProgressRow>, id: string)
    requires forall i | 0 <= i < |progress| :: progress[i].id == id
    ensures Without(progress, id) == []
  {
    if progress != [] {
      WithoutOwner(progress[1..], id);
    }
  }

  lemma {:induction false} AttemptUpdateReadmits(run: Run, s: Tables, u: Unit, now: nat)
    requires Sound(s) && Agrees(s.history, run.units) && ActiveLast(s.history)
    requires u == run.units[|s.history| - 1]
    requires Last(s.history).fingerprint != u.fingerprint ==> run.recover == Some(u.id)
    ensures Readmits(run, s, Effect(UpdateAttempt(u.id, u.fingerprint, u.language, now), s))
  {
  }

  lemma {:induction false} SuccessUpdateCompletes(run: Run, s: Tables, u: Unit, now: nat)
    requires Sound(s) && Agrees(s.history, run.units) && ActiveLast(s.history)
    requires u == run.units[|s.history| - 1]
    requires Last(s.history).fingerprint == u.fingerprint && Last(s.history).language == u.language
    ensures Completes(run, s, Effect(DeleteProgress(u.id), Effect(UpdateSuccess(u.id, now), s)))
  {
    var n := |s.history| - 1;
    var t := Effect(UpdateSuccess(u.id, now), s);
    assert Resumable(s.history[n], run.units[n]);
    assert t.history[..n] == s.history[..n];
    WithoutOwner(s.progress, u.id);
  }

  // ------------------------------------------------------- where a run stands

  /** Units before `k` are durably successful as published; unit `k` may be
      ACTIVE, and nothing beyond it is recorded. */
  ghost predicate AtUnit(run: Run, k: nat, t: Tables) {
    && Sound(t) && Agrees(t.history, run.units)
    && Succeeded(t.history) == k <= |run.units|
  }

  /** Author code ran only where it may. */
  ghost predicate LegalEntry(run: Run, e: Entry) {
    && 1 <= e.position <= |run.units|
    && AtUnit(run, e.position - 1, e.durable)
    && var u := run.units[e.position - 1];
    && (u.mode.RESTARTABLE? ==>
          && ActiveLast(e.durable.history) && Last(e.durable.history).id == u.id
          && Last(e.durable.history).attempt == e.attempt
          && Last(e.durable.history).fingerprint == u.fingerprint)
  }

  lemma {:induction false} AfterSuccess(run: Run, k: nat, s: Tables, t: Tables)
    requires WellFormedCapture(run.units) && AtUnit(run, k, s) && Succeeds(run, s, t)
    ensures AtUnit(run, k + 1, t) && !ActiveLast(t.history)
  {
    var n := |s.history|;
    ProgressHasAnOwner(s.history, s.progress);
    AppendKeepsShape(s.history, t.history[n], run.units);
    assert t.history == s.history + [t.history[n]];
  }

  lemma {:induction false} AfterAdmission(run: Run, k: nat, s: Tables, t: Tables)
    requires WellFormedCapture(run.units) && AtUnit(run, k, s) && Admits(run, s, t)
    ensures AtUnit(run, k, t) && ActiveLast(t.history) && Last(t.history).attempt == Some(1)
    ensures Last(t.history).fingerprint == run.units[k].fingerprint && Last(t.history).language == run.units[k].language
  {
    var n := |s.history|;
    ProgressHasAnOwner(s.history, s.progress);
    AppendKeepsShape(s.history, t.history[n], run.units);
    assert t.history == s.history + [t.history[n]];
    assert Unchanged(t.history[n], run.units[n]);
  }

  lemma {:induction false} AfterReadmission(run: Run, k: nat, s: Tables, t: Tables)
    requires AtUnit(run, k, s) && Readmits(run, s, t) && WellFormedCapture(run.units)
    ensures AtUnit(run, k, t) && ActiveLast(t.history)
    ensures Last(t.history).attempt == Some(Last(s.history).attempt.value + 1)
    ensures Last(t.history).fingerprint == run.units[k].fingerprint && Last(t.history).language == run.units[k].language
  {
    hide SupportedFingerprint;
    var n := |s.history| - 1;
    assert ValidRow(s.history[n]) && Resumable(s.history[n], run.units[n]);
    ReplaceLastKeepsShape(s.history, t.history[n]);
    assert t.history == Front(s.history) + [t.history[n]];
    assert StateValidate.Owner(t.history) == StateValidate.Owner(s.history);
    forall i | 0 <= i < n ensures Unchanged(t.history[i], run.units[i]) {
      assert t.history[i] == s.history[i];
    }
  }

  /** The ACTIVE row at unit `k` is that unit's, and the only one. */
  lemma {:induction false} ActiveIsThisUnit(run: Run, k: nat, s: Tables)
    requires AtUnit(run, k, s) && k < |run.units| && ActiveLast(s.history)
    ensures CountActive(s.history, run.units[k].id) == 1
    ensures Last(s.history).id == run.units[k].id && Last(s.history).attempt.Some?
  {
    ShapedCount(s.history);
    assert Resumable(s.history[k], run.units[k]) && ValidRow(s.history[k]);
  }

  /** The attempt update of the ACTIVE row is a readmission. */
  lemma {:induction false} ReadmissionByUpdate(run: Run, k: nat, s: Tables, t: Tables)
    requires AtUnit(run, k, s) && WellFormedCapture(run.units) && k < |run.units| && ActiveLast(s.history)
    requires Last(s.history).fingerprint != run.units[k].fingerprint ==> run.recover == Some(run.units[k].id)
    requires var u := run.units[k]; exists now :: t == Effect(UpdateAttempt(u.id, u.fingerprint, u.language, now), s)
    ensures Step(run, s, t) && AtUnit(run, k, t) && ActiveLast(t.history)
    ensures Last(s.history).attempt.Some? && Last(t.history).attempt == Some(Last(s.history).attempt.value + 1)
    ensures Last(t.history).fingerprint == run.units[k].fingerprint && Last(t.history).language == run.units[k].language
    ensures t.app == s.app && t.progress == s.progress
  {
    var u := run.units[k];
    assert |s.history| == k + 1;
    ActiveIsThisUnit(run, k, s);
    var now :| t == Effect(UpdateAttempt(u.id, u.fingerprint, u.language, now), s);
    AttemptUpdateReadmits(run, s, u, now);
    hide Effect, Readmits;
    AfterReadmission(run, k, s, t);
    StepByAdmission(run, s, t);
  }

  lemma {:induction false} ReadmissionCounts(run: Run, k: nat, s: Tables, t: Tables)
    requires AtUnit(run, k, s) && AtUnit(run, k, t)
    ensures Succeeded(t.history) == Succeeded(s.history)
  {
  }

  lemma {:induction false} AfterCompletion(run: Run, k: nat, s: Tables, t: Tables)
    requires AtUnit(run, k, s) && Completes(run, s, t) && WellFormedCapture(run.units)
    ensures AtUnit(run, k + 1, t) && !ActiveLast(t.history)
  {
    hide SupportedFingerprint;
    var n := |s.history| - 1;
    assert ValidRow(s.history[n]) && Resumable(s.history[n], run.units[n]);
    ReplaceLastKeepsShape(s.history, t.history[n]);
    assert t.history == Front(s.history) + [t.history[n]];
    forall i | 0 <= i < n ensures Unchanged(t.history[i], run.units[i]) {
      assert t.history[i] == s.history[i];
    }
  }

  // ----------------------------------------------------------------- the run

  class MigrateEngine {
    const adapter: SessionAdapter
    const run: Run
    const sources: seq<Source>
    /** Whether what the marker records about its origin fits this run. */
    const bindingsMatch: bool

    var executed: seq<string>
    var exitCode: Exit
    var reported: bool
    var started: bool
    var connected: bool
    var recoveryId: Option<string>

    /** This run's durable states start here in the trail. */
    ghost const base: nat
    /** Any course at all. */
    ghost const course: Course
    ghost var entries: seq<Entry>

    /** What holds at every moment of every run. */
    ghost predicate Lawful()
      reads this, adapter, adapter.db, adapter.latch
    {
      && adapter.Valid()
      && WellFormedCapture(run.units) && |sources| == |run.units|
      && base < |adapter.db.trail|
      && StepsFrom(run, adapter.db.trail, base)
      && Charted(adapter.db.severing, run.units, sources, course, adapter.db.trail, base)
    }

    /** This run is guided, by the sources it has and the data it found. */
    ghost predicate OnCourse()
      requires base < |adapter.db.trail|
      reads adapter, adapter.db
    {
      Guided(adapter.db.severing, run.units, sources, course, Start())
    }

    /** What this run found. */
    ghost function Start(): Tables
      requires base < |adapter.db.trail|
      reads adapter, adapter.db
    {
      adapter.db.trail[base]
    }

    /** What was executed is a prefix of what was left to do, and author code was
        entered once for each of these units and at most for one more. */
    ghost predicate Ledger()
      reads this, adapter, adapter.db, adapter.latch
    {
      && base < |adapter.db.trail|
      && executed <= Remaining(Start())
      && |executed| <= |entries| <= |executed| + 1
      && Entered(run, sources, adapter.db.severing, adapter.At(), Succeeded(Start().history), entries)
    }

    /** Between units, with everything before `k` done. */
    ghost predicate Ready(k: nat)
      reads this, adapter, adapter.db, adapter.latch
    {
      && Lawful() && Idle(adapter.At()) && AtUnit(run, k, adapter.db.server.durable)
      && (OnCourse() ==> !adapter.latch.Half())
    }

    constructor (adapter: SessionAdapter, run: Run, sources: seq<Source>, bindingsMatch: bool, ghost course: Course)
      requires adapter.Valid() && Idle(adapter.At())
      requires WellFormedCapture(run.units) && |sources| == |run.units|
      ensures Lawful() && this.adapter == adapter && this.run == run && this.sources == sources
      ensures !reported && exitCode.OK? && !started && !connected && executed == [] && entries == [] && this.bindingsMatch == bindingsMatch
      ensures base == |adapter.db.trail| - 1 && this.course == course
    {
      this.adapter, this.run, this.sources, this.bindingsMatch := adapter, run, sources, bindingsMatch;
      executed, exitCode, reported, started, connected, recoveryId := [], OK, false, false, false, None;
      base := |adapter.db.trail| - 1;
      this.course := course;
      entries := [];
    }

    // -------------------------------------------------------- invocation

    method InvokeSql(ctx: MigrationContext, source: Source) returns (o: Outcome)
      requires source.SqlFile? && ctx.Valid() && ctx.adapter == adapter && !ctx.inBatch && ctx.openBatch.None?
      modifies ctx, adapter, adapter.db, adapter.latch
      ensures ctx.Valid() && Authored(ctx.Owner(), old(adapter.At()), adapter.At())
      ensures ctx.openBatch.None? && !ctx.inBatch && SameExits(ctx.exits, old(ctx.exits))
      ensures !ctx.restartable ==> Passive(old(adapter.At()), adapter.At(), adapter.db.severing)
      ensures o.Done? && old(ctx.Smooth()) ==> ctx.Smooth()
      ensures old(ctx.Tidy()) && !adapter.db.faulty && source.legal ==> o.Done?
      ensures old(ctx.Tidy()) && !adapter.db.severing ==>
                && (o.Done? ==> ctx.Tidy() && StoreOf(adapter.db.server.Visible()) == Written(StoreOf(old(adapter.db.server).Visible()), source.write))
                && (if ctx.restartable then Within(old(adapter.db.trail), adapter.db.trail, Written(StoreOf(old(adapter.db.server).durable), source.write))
                    else adapter.db.trail == old(adapter.db.trail))
      ensures !source.legal ==> o.Raised? && o.error.Validation? && adapter.At() == old(adapter.At()) && adapter.db.calls == old(adapter.db.calls)
    {
      hide Authored, Extends, Executes, Effect, Applies;
      ctx.NothingYet();
      PassiveNothing(adapter.At(), adapter.db.severing);
      if !source.legal {
        return Raised(Validation("SQL entry is not admitted"));
      }
      WrittenStore(adapter.db.server.Visible(), source.write);
      if !ctx.restartable || source.procedural {
        o := SubmitEntry(ctx, source);
      } else {
        o := RunEntryDdl(ctx, source);
      }
    }

    method SubmitEntry(ctx: MigrationContext, source: Source) returns (o: Outcome)
      requires source.SqlFile? && ctx.Valid() && ctx.adapter == adapter && !ctx.inBatch
      modifies ctx`spans, adapter, adapter.db, adapter.latch
      ensures ctx.Valid() && Authored(ctx.Owner(), old(adapter.At()), adapter.At())
      ensures Passive(old(adapter.At()), adapter.At(), adapter.db.severing)
      ensures o.Done? && old(ctx.Smooth()) ==> ctx.Smooth()
      ensures old(ctx.Tidy()) && !adapter.db.faulty ==> o.Done?
      ensures old(ctx.Tidy()) && !adapter.db.severing ==>
                && (o.Done? ==> ctx.Tidy() && adapter.db.server.Visible() == Effect(AuthorStatement(source.write), old(adapter.db.server).Visible()))
                && (if ctx.restartable then Within(old(adapter.db.trail), adapter.db.trail, StoreOf(Effect(AuthorStatement(source.write), old(adapter.db.server).durable)))
                    else adapter.db.trail == old(adapter.db.trail))
      ensures SentAs(old(adapter.db.calls), adapter.db.calls, ctx.restartable)
    {
      hide Authored, Extends, Effect;
      var sql := AuthorStatement(source.write);
      var _ :- ctx.SubmitOwn(sql, "execute", ctx.restartable);
      if !adapter.db.severing {
        AppliedInPlace(old(adapter.db.server), sql, adapter.db.server);
      }
      return Done;
    }

    /** A restartable SQL entry is one DDL statement in its own transaction. */
    method RunEntryDdl(ctx: MigrationContext, source: Source) returns (o: Outcome)
      requires source.SqlFile? && ctx.Valid() && ctx.adapter == adapter && ctx.restartable && !ctx.inBatch
      modifies ctx`exits, adapter, adapter.db, adapter.latch
      ensures ctx.Valid() && Authored(ctx.Owner(), old(adapter.At()), adapter.At())
      ensures SameExits(ctx.exits, old(ctx.exits))
      ensures old(adapter.db.server).txn.Open? ==>
                && adapter.db.server == old(adapter.db.server) && adapter.db.trail == old(adapter.db.trail)
                && o.Raised? && (old(adapter.latch.error).None? ==> o.error.MigrationFailed? || Interfered(o.error))
      ensures o.Done? && old(ctx.Smooth()) ==> ctx.Smooth()
      ensures old(ctx.Tidy()) && !adapter.db.faulty ==> o.Done?
      ensures old(ctx.Tidy()) && !adapter.db.severing ==>
                && (o.Done? ==> ctx.Tidy() && adapter.db.server.Visible() == Effect(AuthorStatement(source.write), old(adapter.db.server).Visible()))
                && Within(old(adapter.db.trail), adapter.db.trail, StoreOf(Effect(AuthorStatement(source.write), old(adapter.db.server).durable)))
    {
      hide Authors, Recorded, SpanHolds, Ended, Orderly, Harmless, Effect;
      var open := adapter.HasOpenTransaction();
      ctx.SpansStay(old(adapter.db.calls));
      ghost var probed := adapter.At();
      if open.Threw? {
        return Raised(open.error);
      }
      if open.value {
        return Raised(MigrationFailed("migration_execution"));
      }
      hide Authored, Extends;
      o := ctx.GuardedDdl(source.write);
      AuthoredComposes(ctx.Owner(), old(adapter.At()), probed, adapter.At());
    }

    /** Run the migration's own code, whichever language it is in: only where it may
        be entered, and not without a trace. */
    method Invoke(k: nat, attempt: Option<int>, ctx: MigrationContext) returns (o: Outcome)
      requires ctx.Valid() && ctx.adapter == adapter && !ctx.inBatch && ctx.openBatch.None? && ctx.batches == [] && ctx.exits == []
      requires k < |run.units| == |sources| && ctx.id == run.units[k].id && ctx.restartable == run.units[k].mode.RESTARTABLE?
      requires LegalEntry(run, Entry(k + 1, attempt, adapter.db.server.durable, adapter.latch.Half(), []))
      requires adapter.db.server.txn.Open? ==> adapter.db.server.txn.work == adapter.db.server.durable
      modifies this`entries, ctx, adapter, adapter.db, adapter.latch
      ensures entries == old(entries) + [Entry(k + 1, attempt, old(adapter.db.server).durable, old(adapter.latch.Half()), ctx.exits)]
      ensures ctx.Valid() && Authored(ctx.Owner(), old(adapter.At()), adapter.At())
      ensures sources[k].SqlFile? && !sources[k].legal ==> o.Raised? && o.error.Validation? && adapter.db.calls == old(adapter.db.calls)
      ensures !ctx.restartable ==> Passive(old(adapter.At()), adapter.At(), adapter.db.severing)
      ensures BracketedSource(sources[k], StoreOf(old(adapter.db.server).durable)) ==> ctx.Unstrayed()
      ensures o.Done? && old(ctx.Smooth()) && CandidSource(sources[k], StoreOf(old(adapter.db.server).durable)) ==> ctx.Smooth()
      ensures var p := PlaySource(sources[k], run.units[k], StoreOf(old(adapter.db.server).durable));
              old(ctx.Tidy()) && !adapter.db.faulty && p.Some? ==>
                o.Done? && ctx.Tidy() && ctx.openBatch.None? && StoreOf(adapter.db.server.Visible()) == p.value
      ensures var store := StoreOf(old(adapter.db.server).durable);
              var p := PlaySource(sources[k], run.units[k], store);
              old(ctx.Tidy()) && !adapter.db.severing && p.Some? && StraightSource(sources[k], store) ==>
                && (o.Done? ==> ctx.Tidy() && ctx.openBatch.None? && StoreOf(adapter.db.server.Visible()) == p.value)
                && SourceTrail(sources[k], run.units[k], store, old(adapter.db.trail), adapter.db.trail)
    {
      hide Authored, Extends, MigrationContext.Steady, MigrationContext.Evident, Passive, LegalEntry, Play, Bracketed, Candid, Straight, Passes;
      ctx.NothingYet();
      ghost var e := Entry(k + 1, attempt, adapter.db.server.durable, adapter.latch.Half(), []);
      match sources[k] {
        case SqlFile(_, _, _) => o := InvokeSql(ctx, sources[k]);
        case PythonFile(author) => o := ctx.Run(author);
      }
      entries := entries + [e.(exits := ctx.exits)];
    }

    /** Author code, as a part of the run: all it can do are protocol steps, and in a
        guided run it keeps to the course. */
    method RunAuthor(k: nat, attempt: Option<int>, ctx: MigrationContext) returns (o: Outcome)
      requires Lawful() && ctx.Valid() && ctx.adapter == adapter && !ctx.inBatch && ctx.openBatch.None? && ctx.batches == [] && ctx.exits == []
      requires k < |run.units| && ctx.id == run.units[k].id && ctx.restartable == run.units[k].mode.RESTARTABLE?
      requires LegalEntry(run, Entry(k + 1, attempt, adapter.db.server.durable, adapter.latch.Half(), []))
      requires adapter.db.server.txn.Open? ==> adapter.db.server.txn.work == adapter.db.server.durable
      requires StateValidate.Owner(adapter.db.server.durable.history) == ctx.Owner() && (!adapter.latch.Half() ==> ctx.Tidy())
      requires OnCourse() ==> !adapter.latch.Half()
      modifies this`entries, ctx, adapter, adapter.db, adapter.latch
      ensures Lawful() && Start() == old(Start())
      ensures Opens(k, StoreOf(old(adapter.db.server).durable), old(adapter.latch.Half()), old(entries)) && Last(entries).exits == ctx.exits
      ensures ctx.Valid() && Authored(ctx.Owner(), old(adapter.At()), adapter.At())
      ensures adapter.db.server.durable.history == old(adapter.db.server).durable.history && AtUnit(run, k, adapter.db.server.durable)
      ensures !ctx.restartable ==> Passive(old(adapter.At()), adapter.At(), adapter.db.severing)
      ensures BracketedSource(sources[k], StoreOf(old(adapter.db.server).durable)) ==> ctx.Unstrayed()
      ensures o.Done? && !old(adapter.latch.Half()) && CandidSource(sources[k], StoreOf(old(adapter.db.server).durable)) ==> ctx.Smooth()
      ensures var p := PlaySource(sources[k], run.units[k], StoreOf(old(adapter.db.server).durable));
              !adapter.db.faulty && p.Some? ==> o.Done? && ctx.Tidy() && ctx.openBatch.None? && StoreOf(adapter.db.server.Visible()) == p.value
      ensures o.Done? ==> Arrives(adapter.db.severing, run.units, sources, course, Start(), k, adapter.db.server.Visible().app)
      ensures o.Done? && OnCourse() ==> ctx.Smooth()
    {
      hide Step, StepsFrom, WellFormedCapture, Ended, Orderly, Agrees, Authors, Recorded, PlaySource, CandidSource, BracketedSource, StraightSource,
           Charted, Guided, SourceTrail, Steered, Passive, MigrationContext.Valid, MigrationContext.Tidy;
      GuidedHere(k);
      assert adapter.latch.Half() ==> adapter.db.faulty;
      o := Invoke(k, attempt, ctx);
      ctx.NothingYet();
      AuthorTrailSteps(run, ctx.Owner(), old(adapter.db.trail), adapter.db.trail, base);
      ChartedAuthor(adapter.db.severing, run.units, sources, course, old(adapter.db.trail), adapter.db.trail, base, k);
    }

    /** The read-only check of declared required objects. */
    method RequireValid(unit: Unit) returns (o: Outcome)
      requires adapter.Valid()
      modifies adapter.db`calls, adapter.db`interrupts, adapter.latch
      ensures adapter.Valid() && Extends(old(adapter.At()), adapter.At()) && Unmoved(old(adapter.At()), adapter.At())
      ensures o.Done? ==> adapter.latch.state == old(adapter.latch.state) && adapter.latch.error == old(adapter.latch.error)
      ensures !adapter.db.faulty && old(adapter.latch.error).None? ==> o.Done?
      ensures o.Done? && unit.requiresObjects ==> Checked(old(adapter.db.calls), adapter.db.calls)
    {
      if !unit.requiresObjects {
        return Done;
      }
      :- adapter.Fetch(Reading(adapter.db.server.TxnId(), ACK), "required-object validity check");
      var failing := adapter.db.Fault();
      o := if failing then Raised(MigrationFailed("final_validity")) else Done;
    }

    /** Roll back unless the connection must stay silent; only an interrupt
        escapes. */
    method RollbackQuietly() returns (o: Outcome)
      requires adapter.Valid()
      modifies adapter`engineTransaction, adapter.db`server, adapter.db`calls
      ensures adapter.Valid() && Extends(old(adapter.At()), adapter.At())
      ensures adapter.db.trail == old(adapter.db.trail) && adapter.db.server.durable == old(adapter.db.server).durable
      ensures o.Done? || o == Raised(Interrupt)
      ensures !adapter.db.faulty ==> o.Done?
      ensures Outlives(old(adapter.At()), adapter.At())
      ensures !adapter.latch.Unknown() ==> |adapter.db.calls| == |old(adapter.db.calls)| + 1 && Last(adapter.db.calls).RollingBack?
      ensures adapter.latch.Unknown() ==> adapter.At() == old(adapter.At())
    {
      if adapter.latch.Unknown() {
        return Done;
      }
      o := adapter.Rollback();
      if o.Raised? && o.error.IsException() {
        o := Done;
      }
    }

    /** What to report: the first latched error outranks everything else. */
    function LatchedOr(ordinary: Error): Error
      reads adapter.latch
    {
      if adapter.latch.error.Some? then adapter.latch.error.value else ordinary
    }

    // ------------------------------------------------------------ atomic

    /** Everything between establishing the transaction and committing it.
        `survived` says whether that transaction was still open when author
        code returned. */
    method AtomicBody(k: nat, identity: nat) returns (o: Outcome, ghost survived: bool)
      requires Lawful() && k < |run.units| && run.units[k].mode.ATOMIC?
      requires AtUnit(run, k, adapter.db.server.durable) && !ActiveLast(adapter.db.server.durable.history)
      requires adapter.latch.error.None? && adapter.engineTransaction
      requires adapter.db.server.TxnId() == Some(identity) && adapter.db.server.txn.work == adapter.db.server.durable
      requires !adapter.db.server.txn.cut && (OnCourse() ==> !adapter.latch.Half())
      modifies this`entries, adapter, adapter.db, adapter.latch
      ensures Lawful() && Extends(old(adapter.At()), adapter.At())
      ensures Opens(k, StoreOf(old(adapter.db.server).durable), old(adapter.latch.Half()), old(entries))
      ensures adapter.db.server.durable.history == old(adapter.db.server).durable.history
      ensures survived ==> adapter.db.trail == old(adapter.db.trail)
      ensures o.Done? ==>
                && survived && adapter.latch.error.None? && adapter.engineTransaction && adapter.db.server.txn.Open?
                && Succeeds(run, adapter.db.server.durable, adapter.db.server.txn.work)
      ensures o.Done? && CandidSource(sources[k], StoreOf(old(adapter.db.server).durable)) && adapter.latch.Half() ==> old(adapter.latch.Half())
      ensures var p := PlaySource(sources[k], run.units[k], StoreOf(old(adapter.db.server).durable));
              !adapter.db.faulty && p.Some? ==> o.Done? && adapter.db.server.txn.work.app == p.value.app
      ensures o.Done? && OnCourse() ==> !adapter.latch.Half()
      ensures Start() == old(Start())
      ensures o.Done? ==> Arrives(adapter.db.severing, run.units, sources, course, Start(), k, adapter.db.server.txn.work.app)
    {
      hide Step, StepsFrom, Onward, Orderly, WellFormedCapture, Extends, PlaySource, CandidSource, Charted, Guided, Opens, Checked, Quiet, Attended, Suspect,
           AtUnit, Succeeds, Arrives;
      o, survived := AtomicAuthor(k, identity);
      if o.Done? {
        ghost var returned := adapter.At();
        o := AtomicReturn(k, identity);
        ExtendsComposes(old(adapter.At()), returned, adapter.At());
      }
    }

    /** Author code inside the established transaction. */
    method AtomicAuthor(k: nat, identity: nat) returns (o: Outcome, ghost survived: bool)
      requires Lawful() && k < |run.units| && run.units[k].mode.ATOMIC?
      requires AtUnit(run, k, adapter.db.server.durable) && !ActiveLast(adapter.db.server.durable.history)
      requires adapter.latch.error.None? && adapter.engineTransaction
      requires adapter.db.server.TxnId() == Some(identity) && adapter.db.server.txn.work == adapter.db.server.durable
      requires !adapter.db.server.txn.cut && (OnCourse() ==> !adapter.latch.Half())
      modifies this`entries, adapter, adapter.db, adapter.latch
      ensures Lawful() && Extends(old(adapter.At()), adapter.At()) && Start() == old(Start())
      ensures Opens(k, StoreOf(old(adapter.db.server).durable), old(adapter.latch.Half()), old(entries))
      ensures AtUnit(run, k, adapter.db.server.durable) && adapter.db.server.durable.history == old(adapter.db.server).durable.history
      ensures survived <==> adapter.db.server.TxnId() == Some(identity)
      ensures survived ==> adapter.db.trail == old(adapter.db.trail)
      ensures Harmless(None, adapter.db.server) && (adapter.db.server.txn.Open? ==> !adapter.db.server.txn.cut) && adapter.engineTransaction
      ensures o.Done? && CandidSource(sources[k], StoreOf(old(adapter.db.server).durable)) && adapter.latch.Half() ==> old(adapter.latch.Half())
      ensures var p := PlaySource(sources[k], run.units[k], StoreOf(old(adapter.db.server).durable));
              !adapter.db.faulty && p.Some? ==> o.Done? && survived && adapter.latch.error.None? && adapter.db.server.txn.work.app == p.value.app
      ensures o.Done? && OnCourse() ==> !adapter.latch.Half()
      ensures o.Done? && survived ==> Arrives(adapter.db.severing, run.units, sources, course, Start(), k, adapter.db.server.txn.work.app)
    {
      assert identity < adapter.db.server.nextId;
      hide Step, StepsFrom, Ended, Orderly, WellFormedCapture, Agrees, Authors, Recorded, PlaySource, CandidSource, BracketedSource, Charted, Guided, SpanHolds,
           Quiet, Attended, Suspect, Arrives;
      var ctx := new MigrationContext(adapter, run.units[k].id, false);
      o := RunAuthor(k, None, ctx);
      survived := adapter.db.server.TxnId() == Some(identity);
    }

    /** In a guided run the source at hand runs through, and straight. */
    lemma {:induction false} GuidedHere(k: nat)
      requires Lawful() && k < |run.units| && Succeeded(adapter.db.server.durable.history) == k
      ensures OnCourse() ==>
                && !adapter.db.severing
                && StraightSource(sources[k], StoreOf(adapter.db.server.durable)) && CandidSource(sources[k], StoreOf(adapter.db.server.durable))
                && var p := PlaySource(sources[k], run.units[k], StoreOf(adapter.db.server.durable));
                   p.Some? && Arrives(adapter.db.severing, run.units, sources, course, Start(), k, p.value.app)
    {
      hide Step, StepsFrom, WellFormedCapture;
      if OnCourse() {
        ChartedSource(adapter.db.severing, run.units, sources, course, adapter.db.trail, base, k);
        if sources[k].PythonFile? {
          var author := sources[k].author;
          StraightIsCandid(author.next, [], false, false, author.budget(StoreOf(adapter.db.server.durable)));
        }
      }
    }

    /** Author code of unit `k` was entered once, where it may be, over that data. */
    ghost predicate Opens(k: nat, store: Store, half: bool, before: seq<Entry>)
      reads this
    {
      && |entries| == |before| + 1 && Front(entries) == before
      && var e := Last(entries);
      && e.position == k + 1 && StoreOf(e.durable) == store && e.half == half && LegalEntry(run, e)
    }

    /** What follows a normal return: the latch, the required objects, the identity
        of the transaction, and only then the SUCCESS row in it. */
    method AtomicReturn(k: nat, identity: nat) returns (o: Outcome)
      requires Lawful() && k < |run.units| && run.units[k].mode.ATOMIC?
      requires AtUnit(run, k, adapter.db.server.durable) && !ActiveLast(adapter.db.server.durable.history)
      requires Harmless(None, adapter.db.server) && (adapter.db.server.txn.Open? ==> !adapter.db.server.txn.cut)
      modifies adapter.db, adapter.latch
      ensures Lawful() && Extends(old(adapter.At()), adapter.At())
      ensures adapter.db.server.durable == old(adapter.db.server).durable && adapter.db.trail == old(adapter.db.trail)
      ensures adapter.engineTransaction == old(adapter.engineTransaction)
      ensures o.Done? ==>
                && old(adapter.db.server).TxnId() == Some(identity) && adapter.latch.error.None? && adapter.db.server.txn.Open?
                && Succeeds(run, adapter.db.server.durable, adapter.db.server.txn.work)
                && adapter.db.server.txn.work.app == old(adapter.db.server).txn.work.app
                && adapter.latch.state == old(adapter.latch.state) && adapter.latch.error == old(adapter.latch.error)
      ensures !adapter.db.faulty && old(adapter.latch.error).None? && old(adapter.db.server).TxnId() == Some(identity) ==> o.Done?
      ensures o.Done? && run.units[k].requiresObjects ==> Checked(old(adapter.db.calls), adapter.db.calls)
    {
      hide Step, StepsFrom, Onward, Orderly, Checked, Quiet, Attended, Suspect, Charted;
      OnwardStays(adapter.db.server);
      o := adapter.latch.Check();
      :- o;
      :- RequireValid(run.units[k]);
      ghost var looked := adapter.At();
      :- CheckTransactionIdentity(adapter, Some(identity));
      ghost var pending := adapter.db.server.txn.work;
      o := adapter.InsertSuccessRow(run.units[k]);
      StillChecked(old(adapter.db.calls), looked.calls, adapter.db.calls);
      if o.Done? {
        SuccessRowSucceeds(run, adapter.db.server.durable, pending, adapter.db.server.txn.work);
      }
    }

    /** One atomic unit.  While the established transaction survives, its work and
        its row become durable in one step or not at all; if it ends underneath the
        migration, no SUCCESS row becomes durable. */
    method RunAtomic(k: nat) returns (o: Outcome, ghost survived: bool)
      requires Ready(k) && k < |run.units| && run.units[k].mode.ATOMIC?
      requires !ActiveLast(adapter.db.server.durable.history)
      modifies this`entries, adapter, adapter.db, adapter.latch
      ensures Lawful() && Extends(old(adapter.At()), adapter.At())
      ensures entries == old(entries) || Opens(k, StoreOf(old(adapter.db.server).durable), old(adapter.latch.Half()), old(entries))
      ensures o.Done? ==> entries != old(entries)
      ensures survived ==>
                || adapter.db.trail == old(adapter.db.trail)
                || (&& adapter.db.trail == old(adapter.db.trail) + [adapter.db.server.durable]
                    && Succeeds(run, old(adapter.db.server).durable, adapter.db.server.durable))
      ensures !survived ==> o.Raised? && adapter.db.server.durable.history == old(adapter.db.server).durable.history
      ensures o.Done? ==> Ready(k + 1) && !ActiveLast(adapter.db.server.durable.history)
      ensures o.Done? && CandidSource(sources[k], StoreOf(old(adapter.db.server).durable)) && adapter.latch.Half() ==> old(adapter.latch.Half())
      ensures var p := PlaySource(sources[k], run.units[k], StoreOf(old(adapter.db.server).durable));
              !adapter.db.faulty && p.Some? ==> o.Done? && adapter.db.server.durable.app == p.value.app
    {
      hide Step, StepsFrom, Ended, Orderly, WellFormedCapture, LegalEntry, AtUnit, Succeeds, Extends, PlaySource, CandidSource;
      survived := true;
      var identity := BeginAtomic();
      if identity.Threw? {
        return Raised(identity.error), survived;
      }
      ghost var begun := adapter.At();
      o, survived := AtomicBody(k, identity.value);
      ghost var ran := adapter.At();
      ExtendsComposes(old(adapter.At()), begun, ran);
      if o.Raised? {
        o := AbandonAtomic(o.error);
      } else {
        o := CommitAtomic(k);
      }
      ExtendsComposes(old(adapter.At()), ran, adapter.At());
    }

    /** The transaction of an atomic unit, and its identity. */
    method BeginAtomic() returns (r: Result<nat>)
      requires Lawful() && Idle(adapter.At())
      modifies adapter, adapter.db, adapter.latch
      ensures Lawful() && Extends(old(adapter.At()), adapter.At())
      ensures adapter.db.trail == old(adapter.db.trail) && adapter.db.server.durable == old(adapter.db.server).durable
      ensures r.Returned? ==>
                && adapter.latch.error.None? && adapter.engineTransaction && adapter.db.server.TxnId() == Some(r.value)
                && adapter.db.server.txn.work == adapter.db.server.durable && !adapter.db.server.txn.cut
                && adapter.latch.state == old(adapter.latch.state)
      ensures !adapter.db.faulty ==> r.Returned?
    {
      hide Step, StepsFrom, Ended, Orderly, LegalEntry, WellFormedCapture;
      var o := adapter.Begin();
      if o.Raised? {
        return Threw(o.error);
      }
      r := adapter.EstablishTransactionIdentity();
    }

    /** The commit that completes an atomic unit. */
    method CommitAtomic(k: nat) returns (o: Outcome)
      requires Lawful() && AtUnit(run, k, adapter.db.server.durable) && adapter.latch.error.None? && adapter.db.server.txn.Open?
      requires Succeeds(run, adapter.db.server.durable, adapter.db.server.txn.work)
      requires Arrives(adapter.db.severing, run.units, sources, course, Start(), k, adapter.db.server.txn.work.app)
      requires OnCourse() ==> !adapter.latch.Half()
      modifies adapter, adapter.db, adapter.latch
      ensures Lawful() && Extends(old(adapter.At()), adapter.At())
      ensures || adapter.db.trail == old(adapter.db.trail)
              || (&& adapter.db.trail == old(adapter.db.trail) + [adapter.db.server.durable]
                  && Succeeds(run, old(adapter.db.server).durable, adapter.db.server.durable))
      ensures o.Done? ==> Ready(k + 1) && !ActiveLast(adapter.db.server.durable.history)
      ensures o.Done? ==> adapter.db.server.durable == old(adapter.db.server).txn.work && adapter.latch.state == old(adapter.latch.state)
      ensures !adapter.db.faulty ==> o.Done?
    {
      hide Step, StepsFrom, Ended, Orderly, WellFormedCapture, LegalEntry, AtUnit, Succeeds;
      ghost var before, work := adapter.db.server.durable, adapter.db.server.txn.work;
      o := adapter.DurableCommit("atomic_completion commit");
      if o.Done? || adapter.db.server.durable != before {
        StepBySuccess(run, before, work);
        OneMoreStep(run, old(adapter.db.trail), base, work);
        AfterSuccess(run, k, before, work);
        CompletionInCourse(run, adapter.db.severing, sources, course, old(adapter.db.trail), base, k, work);
      }
    }

    /** An atomic failure: nothing more is sent after an unknown outcome, and a
        latched error cannot be downgraded. */
    method AbandonAtomic(e: Error) returns (o: Outcome)
      requires Lawful()
      modifies adapter`engineTransaction, adapter.db`server, adapter.db`calls
      ensures Lawful() && Extends(old(adapter.At()), adapter.At())
      ensures adapter.db.trail == old(adapter.db.trail) && adapter.db.server.durable == old(adapter.db.server).durable
      ensures o.Raised?
      ensures e.UnknownOutcome? || e.Interrupt? || e.SystemExit? ==> o == Raised(e) && adapter.At() == old(adapter.At())
      ensures !(e.UnknownOutcome? || e.Interrupt? || e.SystemExit? || adapter.latch.Unknown()) ==> adapter.db.calls != [] && Last(adapter.db.calls).RollingBack?
      ensures !(e.UnknownOutcome? || e.Interrupt? || e.SystemExit?) && o != Raised(Interrupt) ==>
                o.error == if e.ContractViolation? || e.MigrationFailed? then e
                           else if adapter.latch.error.Some? then adapter.latch.error.value else MigrationFailed("migration_execution")
    {
      if e.UnknownOutcome? || !e.IsException() {
        return Raised(e);
      }
      :- RollbackQuietly();
      if e.ContractViolation? || e.MigrationFailed? {
        return Raised(e);
      }
      return Raised(LatchedOr(MigrationFailed("migration_execution")));
    }

    // ------------------------------------------------------- restartable

    /** First admission of a unit, as attempt 1. */
    method AdmitFirst(k: nat) returns (o: Outcome)
      requires Ready(k) && k < |run.units| && run.units[k].mode.RESTARTABLE?
      requires !ActiveLast(adapter.db.server.durable.history)
      modifies adapter, adapter.db, adapter.latch
      ensures Lawful() && Extends(old(adapter.At()), adapter.At())
      ensures AtUnit(run, k, adapter.db.server.durable)
      ensures o.Done? ==> Idle(adapter.At()) && Admitted(k, 1)
      ensures !adapter.db.faulty ==> o.Done?
      ensures adapter.db.server.durable.app == old(adapter.db.server).durable.app
      ensures adapter.db.server.durable.progress == old(adapter.db.server).durable.progress
      ensures o.Done? ==> adapter.latch.state == old(adapter.latch.state)
      ensures Start() == old(Start())
    {
      hide Step, StepsFrom, Ended, Orderly;
      ghost var before := adapter.db.server.durable;
      o := adapter.InsertActiveRow(run.units[k]);
      if o.Done? || adapter.db.server.durable != before {
        FirstAdmission(run, before, adapter.db.server.durable);
        AfterAdmission(run, k, before, adapter.db.server.durable);
        ChartedSame(adapter.db.severing, run.units, sources, course, old(adapter.db.trail), old(adapter.db.trail) + [adapter.db.server.durable], base);
        OneMoreStep(run, old(adapter.db.trail), base, adapter.db.server.durable) by {
          StepByAdmission(run, before, adapter.db.server.durable);
        }
      }
    }

    /** A further attempt of the ACTIVE unit. */
    method AdmitAgain(k: nat) returns (o: Outcome)
      requires Ready(k) && k < |run.units| && run.units[k].mode.RESTARTABLE?
      requires ActiveLast(adapter.db.server.durable.history)
      requires Resumes(Some(Last(adapter.db.server.durable.history)), k)
      modifies adapter, adapter.db, adapter.latch
      ensures Lawful() && Extends(old(adapter.At()), adapter.At())
      ensures AtUnit(run, k, adapter.db.server.durable)
      ensures o.Done? ==> Idle(adapter.At()) && Admitted(k, Last(old(adapter.db.server).durable.history).attempt.value + 1)
      ensures !adapter.db.faulty ==> o.Done?
      ensures adapter.db.server.durable.app == old(adapter.db.server).durable.app
      ensures adapter.db.server.durable.progress == old(adapter.db.server).durable.progress
      ensures o.Done? ==> adapter.latch.state == old(adapter.latch.state)
      ensures Start() == old(Start())
    {
      hide Step, StepsFrom, Ended, Orderly, WellFormedCapture, LegalEntry, AtUnit, Effect;
      var unit := run.units[k];
      ghost var before := adapter.db.server.durable;
      ActiveIsThisUnit(run, k, before);
      o := adapter.UpdateActiveAttempt(unit);
      if o.Done? || adapter.db.server.durable != before {
        ReadmissionByUpdate(run, k, before, adapter.db.server.durable);
        ReadmissionCounts(run, k, before, adapter.db.server.durable);
        ChartedSame(adapter.db.severing, run.units, sources, course, old(adapter.db.trail), old(adapter.db.trail) + [adapter.db.server.durable], base);
        OneMoreStep(run, old(adapter.db.trail), base, adapter.db.server.durable);
      }
    }

    /** The unit's ACTIVE row is durable when this returns, and its attempt is the
        one author code will see. */
    method Admit(k: nat, active: Option<HistoryRow>) returns (o: Outcome, attempt: int)
      requires Ready(k) && k < |run.units| && run.units[k].mode.RESTARTABLE?
      requires Resumes(active, k)
      modifies adapter, adapter.db, adapter.latch
      ensures Lawful() && Extends(old(adapter.At()), adapter.At())
      ensures AtUnit(run, k, adapter.db.server.durable)
      ensures o.Done? ==> Idle(adapter.At()) && Admitted(k, attempt)
      ensures !adapter.db.faulty ==> o.Done?
      ensures adapter.db.server.durable.app == old(adapter.db.server).durable.app
      ensures adapter.db.server.durable.progress == old(adapter.db.server).durable.progress
      ensures o.Done? ==> adapter.latch.state == old(adapter.latch.state)
      ensures Start() == old(Start())
    {
      hide Step, StepsFrom, Ended, Orderly, Sound, Agrees, LegalEntry, WellFormedCapture;
      if active.None? {
        o := AdmitFirst(k);
        attempt := 1;
      } else {
        o := AdmitAgain(k);
        attempt := active.value.attempt.value + 1;
      }
    }

    /** The plan's ACTIVE row for this unit, which `--recover` admits if amended. */
    ghost predicate Resumes(active: Option<HistoryRow>, k: nat)
      reads adapter, adapter.db
      requires k < |run.units|
    {
      var history := adapter.db.server.durable.history;
      && active == (if ActiveLast(history) then Some(Last(history)) else None)
      && (active.Some? ==>
            && active.value.attempt.Some?
            && (active.value.fingerprint != run.units[k].fingerprint ==> run.recover == Some(run.units[k].id)))
    }

    ghost predicate Admitted(k: nat, attempt: int)
      reads adapter, adapter.db
      requires k < |run.units|
    {
      var history := adapter.db.server.durable.history;
      && AtUnit(run, k, adapter.db.server.durable) && ActiveLast(history)
      && Last(history).attempt == Some(attempt)
      && Last(history).fingerprint == run.units[k].fingerprint && Last(history).language == run.units[k].language
    }

    /** Clean up after a failure: silent after an unknown outcome, and without any
        durable effect. */
    method PostReturnCleanup() returns (o: Outcome)
      requires adapter.Valid()
      modifies adapter, adapter.db`server, adapter.db`calls, adapter.db`interrupts, adapter.latch
      ensures adapter.Valid() && Extends(old(adapter.At()), adapter.At())
      ensures adapter.db.trail == old(adapter.db.trail) && adapter.db.server.durable == old(adapter.db.server).durable
      ensures o.Done? && !adapter.latch.Unknown() ==> adapter.db.server.txn.NoTxn? || (adapter.db.calls != [] && Last(adapter.db.calls).RollingBack?)
      ensures old(adapter.latch.Unknown()) ==> adapter.At() == old(adapter.At())
      ensures o.Raised? ==> Interfered(o.error)
    {
      if adapter.latch.Unknown() {
        return Done;
      }
      if adapter.latch.Latched() {
        o := RollbackQuietly();
        return;
      }
      var open :- adapter.HasOpenTransaction();
      if open {
        o := RollbackQuietly();
      } else {
        o := Done;
      }
    }

    method AbandonRestartable(e: Error) returns (o: Outcome)
      requires Lawful()
      modifies adapter, adapter.db`server, adapter.db`calls, adapter.db`interrupts, adapter.latch
      ensures Lawful() && Extends(old(adapter.At()), adapter.At())
      ensures adapter.db.trail == old(adapter.db.trail) && adapter.db.server.durable == old(adapter.db.server).durable
      ensures o.Raised?
      ensures e.UnknownOutcome? || e.Interrupt? || e.SystemExit? ==> o == Raised(e) && adapter.At() == old(adapter.At())
      ensures e.ContractViolation? || e.MigrationFailed? ==> o == Raised(e) || Interfered(o.error)
      ensures !(e.UnknownOutcome? || e.Interrupt? || e.SystemExit? || e.ContractViolation? || e.MigrationFailed?) ==>
                || o.error == (if adapter.latch.error.Some? then adapter.latch.error.value else MigrationFailed("migration_execution"))
                || Interfered(o.error)
    {
      if e.UnknownOutcome? || !e.IsException() {
        return Raised(e);
      }
      :- PostReturnCleanup();
      if e.ContractViolation? || e.MigrationFailed? {
        return Raised(e);
      }
      return Raised(LatchedOr(MigrationFailed("migration_execution")));
    }

    /** Author code, and every check between its return and completion. */
    method RestartableBody(k: nat, attempt: int) returns (o: Outcome, ghost ctx: MigrationContext)
      requires Lawful() && Idle(adapter.At()) && k < |run.units| && run.units[k].mode.RESTARTABLE? && Admitted(k, attempt)
      requires OnCourse() ==> !adapter.latch.Half()
      modifies this`entries, adapter, adapter.db, adapter.latch
      ensures Lawful() && Extends(old(adapter.At()), adapter.At()) && Admitted(k, attempt)
      ensures Opens(k, StoreOf(old(adapter.db.server).durable), old(adapter.latch.Half()), old(entries)) && Last(entries).exits == ctx.exits
      ensures fresh(ctx) && ctx.adapter == adapter && ctx.restartable && ctx.id == run.units[k].id
      ensures o.Done? ==> ctx.Closing() && adapter.latch.error.None?
      ensures BracketedSource(sources[k], StoreOf(old(adapter.db.server).durable)) ==> ctx.Unstrayed()
      ensures o.Done? && !old(adapter.latch.Half()) && CandidSource(sources[k], StoreOf(old(adapter.db.server).durable)) ==> ctx.Smooth()
      ensures var p := PlaySource(sources[k], run.units[k], StoreOf(old(adapter.db.server).durable));
              !adapter.db.faulty && p.Some? ==> o.Done? && Idle(adapter.At()) && StoreOf(adapter.db.server.durable) == p.value
      ensures o.Done? && OnCourse() ==> !adapter.latch.Half()
      ensures Start() == old(Start())
      ensures o.Done? ==> Arrives(adapter.db.severing, run.units, sources, course, Start(), k, adapter.db.server.durable.app)
    {
      hide Step, StepsFrom, Ended, Orderly, WellFormedCapture, Authors, Recorded, Extends, SpanHolds, PlaySource, CandidSource, BracketedSource, Charted, Guided;
      var unit := run.units[k];
      var context := new MigrationContext(adapter, unit.id, true);
      ctx := context;
      o := RunAuthor(k, Some(attempt), context);
      ghost var returned := adapter.At();
      if o.Raised? {
        o := AbandonRestartable(o.error);
      } else {
        o := PostReturnState(context.openBatch.Some?, unit);
        if o.Done? {
          ctx.StillClosing(returned);
        }
      }
      ExtendsComposes(old(adapter.At()), returned, adapter.At());
    }

    /** After a normal return nothing may be latched or left open. */
    method PostReturnState(openBatch: bool, unit: Unit) returns (o: Outcome)
      requires adapter.Valid()
      modifies adapter, adapter.db`server, adapter.db`calls, adapter.db`interrupts, adapter.latch
      ensures adapter.Valid() && Extends(old(adapter.At()), adapter.At())
      ensures adapter.db.trail == old(adapter.db.trail) && adapter.db.server.durable == old(adapter.db.server).durable
      ensures o.Done? ==>
                && !openBatch && adapter.latch.error.None? && adapter.latch.state == old(adapter.latch.state)
                && Unmoved(old(adapter.At()), adapter.At())
                && adapter.db.server.txn.NoTxn?
      ensures !adapter.db.faulty && old(adapter.latch.error).None? && old(adapter.db.server).txn.NoTxn? && !openBatch ==> o.Done?
      ensures o.Done? && unit.requiresObjects ==> Checked(old(adapter.db.calls), adapter.db.calls)
      ensures old(adapter.latch.error).None? && (openBatch || old(adapter.db.server).txn.Open?) ==>
                o.Raised? && (o.error.MigrationFailed? || Interfered(o.error))
      ensures old(adapter.latch.error).Some? ==> o == Raised(old(adapter.latch.error).value) && Unmoved(old(adapter.At()), adapter.At()) && adapter.db.calls == old(adapter.db.calls)
    {
      o := adapter.latch.Check();
      :- o;
      var open := openBatch;
      if !open {
        open :- adapter.HasOpenTransaction();
      }
      if open {
        :- RollbackQuietly();
        return Raised(MigrationFailed("post_return_state"));
      }
      o := RequireValid(unit);
    }

    /** ACTIVE to SUCCESS.  That `begin` accepts says every cleanly exited batch
        is durable: a rejected commit would have left the engine transaction
        marked open. */
    method Complete(k: nat, attempt: int, ghost ctx: MigrationContext) returns (o: Outcome)
      requires Lawful() && k < |run.units| && run.units[k].mode.RESTARTABLE? && Admitted(k, attempt)
      requires ctx.Closing() && ctx.adapter == adapter
      requires Arrives(adapter.db.severing, run.units, sources, course, Start(), k, adapter.db.server.durable.app)
      requires OnCourse() ==> !adapter.latch.Half()
      modifies adapter, adapter.db, adapter.latch
      ensures Lawful() && Extends(old(adapter.At()), adapter.At())
      ensures Succeeded(adapter.db.server.durable.history) > k ==>
                forall b | b in ctx.exits :: Explained(adapter.At(), adapter.db.severing, b)
      ensures Succeeded(adapter.db.server.durable.history) > k && !adapter.db.severing && ctx.Unstrayed()
              && (old(ctx.Smooth()) || (!adapter.latch.Half() && forall b | b in ctx.exits :: !b.gap)) ==>
                forall b | b in ctx.exits :: Landed(adapter.db.server, b)
      ensures o.Done? ==>
                && Ready(k + 1) && !ActiveLast(adapter.db.server.durable.history) && adapter.latch.state == old(adapter.latch.state)
                && StoreOf(adapter.db.server.durable) == Store(old(adapter.db.server).durable.app, [])
      ensures !adapter.db.faulty && Idle(old(adapter.At())) ==> o.Done?
    {
      hide Step, StepsFrom, Ended, Orderly;
      var unit := run.units[k];
      ghost var before := adapter.db.server.durable;
      ShapedCount(before.history);
      o := adapter.CompleteActiveRow(unit);
      if o.Done? || adapter.db.server.durable != before {
        ghost var now :| adapter.db.server.durable == Effect(DeleteProgress(unit.id), Effect(UpdateSuccess(unit.id, now), before));
        SuccessUpdateCompletes(run, before, unit, now);
        AfterCompletion(run, k, before, adapter.db.server.durable);
        CompletionInCourse(run, adapter.db.severing, sources, course, old(adapter.db.trail), base, k, adapter.db.server.durable);
        OneMoreStep(run, old(adapter.db.trail), base, adapter.db.server.durable) by {
          StepByCompletion(run, before, adapter.db.server.durable);
        }
        ctx.CompletionExplains(old(adapter.At()));
      }
    }

    /** One restartable unit.  If it becomes SUCCESS in this run, every clean exit
        of a batch is vouched for. */
    method RunRestartable(k: nat, active: Option<HistoryRow>) returns (o: Outcome)
      requires Ready(k) && k < |run.units| && run.units[k].mode.RESTARTABLE? && Resumes(active, k)
      modifies this`entries, adapter, adapter.db, adapter.latch
      ensures Lawful() && Extends(old(adapter.At()), adapter.At())
      ensures entries == old(entries) || Opens(k, StoreOf(old(adapter.db.server).durable), old(adapter.latch.Half()), old(entries))
      ensures o.Done? ==> entries != old(entries)
      ensures Succeeded(adapter.db.server.durable.history) > k ==>
                entries != old(entries) && Vouched(sources[k], adapter.db.severing, adapter.At(), Last(entries))
      ensures o.Done? ==> Ready(k + 1) && !ActiveLast(adapter.db.server.durable.history)
      ensures o.Done? && CandidSource(sources[k], StoreOf(old(adapter.db.server).durable)) && adapter.latch.Half() ==> old(adapter.latch.Half())
      ensures var p := PlaySource(sources[k], run.units[k], StoreOf(old(adapter.db.server).durable));
              !adapter.db.faulty && p.Some? ==> o.Done? && StoreOf(adapter.db.server.durable) == Store(p.value.app, [])
    {
      hide Step, StepsFrom, Ended, Orderly, Sound, Agrees, LegalEntry, WellFormedCapture, PlaySource, CandidSource, BracketedSource, Explained, Extends;
      ghost var before := adapter.At();
      var attempt;
      o, attempt := Admit(k, active);
      :- o;
      ghost var admitted := adapter.At();
      ghost var ctx;
      o, ctx := RestartableBody(k, attempt);
      ExtendsComposes(before, admitted, adapter.At());
      :- o;
      ghost var returned := adapter.At();
      o := Complete(k, attempt, ctx);
      ExtendsComposes(before, returned, adapter.At());
    }

    // ---------------------------------------------------------- the plan

    /** One unit of the plan, in the mode it declares. */
    method RunUnit(k: nat, active: Option<HistoryRow>) returns (o: Outcome)
      requires Ready(k) && k < |run.units| && Resumes(active, k)
      modifies this`entries, adapter, adapter.db, adapter.latch
      ensures Lawful() && Extends(old(adapter.At()), adapter.At())
      ensures entries == old(entries) || Opens(k, StoreOf(old(adapter.db.server).durable), old(adapter.latch.Half()), old(entries))
      ensures o.Done? ==> entries != old(entries)
      ensures run.units[k].mode.RESTARTABLE? && Succeeded(adapter.db.server.durable.history) > k ==>
                entries != old(entries) && Vouched(sources[k], adapter.db.severing, adapter.At(), Last(entries))
      ensures o.Done? ==> Ready(k + 1) && !ActiveLast(adapter.db.server.durable.history)
      ensures o.Done? && CandidSource(sources[k], StoreOf(old(adapter.db.server).durable)) && adapter.latch.Half() ==> old(adapter.latch.Half())
      ensures var p := PlaySource(sources[k], run.units[k], StoreOf(old(adapter.db.server).durable));
              !adapter.db.faulty && p.Some? ==> o.Done? && StoreOf(adapter.db.server.durable) == Store(p.value.app, [])
    {
      hide Step, StepsFrom, Ended, Orderly, LegalEntry, PlaySource, CandidSource, Vouched;
      if run.units[k].mode.ATOMIC? {
        ActiveIsRestartable(run, k, adapter.db.server.durable);
        ghost var survived;
        o, survived := RunAtomic(k);
        if o.Done? {
          NoneActiveNoProgress(run, k + 1, adapter.db.server.durable);
        }
      } else {
        o := RunRestartable(k, active);
      }
    }

    /** The first `i` pending units are done and recorded. */
    ghost predicate Poised(plan: Plan, i: nat)
      reads this, adapter, adapter.db, adapter.latch
    {
      var history := adapter.db.server.durable.history;
      && Ready(plan.successCount + i) && Ledger()
      && i <= |plan.pending| && |entries| == i && executed == Ids(plan.pending)[..i]
      && Remaining(Start()) == Ids(plan.pending) && Succeeded(Start().history) == plan.successCount
      && (AllCandid(sources, plan.successCount, entries) ==> !adapter.latch.Half())
      && (if i == 0 then plan.active == (if ActiveLast(history) then Some(Last(history)) else None) else !ActiveLast(history))
    }

    /** Run the next pending unit and append it to the report. */
    method RunPlanned(plan: Plan, i: nat) returns (o: Outcome)
      requires i < |plan.pending| && Poised(plan, i) && OwnActive(plan, i)
      requires plan.successCount <= |run.units| && plan.pending == run.units[plan.successCount..]
      requires plan.active.Some? && plan.activeChanged ==> run.recover == Some(plan.active.value.id)
      modifies this`entries, this`executed, adapter, adapter.db, adapter.latch
      ensures Lawful() && Extends(old(adapter.At()), adapter.At()) && Ledger()
      ensures o.Done? ==> Poised(plan, i + 1)
      ensures var p := PlaySource(sources[plan.successCount + i], plan.pending[i], StoreOf(old(adapter.db.server).durable));
              !adapter.db.faulty && p.Some? ==> o.Done? && StoreOf(adapter.db.server.durable) == Store(p.value.app, [])
    {
      hide Step, StepsFrom, Ended, Orderly, LegalEntry, PlaySource, CandidSource, Sound, Agrees, WellFormedCapture, Vouched, Entered, Extends, AllCandid, Remaining, Ids;
      NextId(plan.pending, i);
      var unit := plan.pending[i];
      var active := if plan.active.Some? && plan.active.value.id == unit.id then plan.active else None;
      ghost var before, earlier := adapter.At(), entries;
      o := RunUnit(plan.successCount + i, active);
      KeepLedger(before, plan.successCount, earlier);
      :- o;
      :- adapter.Tick();
      executed := executed + [unit.id];
      return Done;
    }

    /** The entries so far, and the one this unit added if it did. */
    lemma {:induction false} KeepLedger(before: Session, first: nat, earlier: seq<Entry>)
      requires adapter.Valid() && |sources| == |run.units| && first + |earlier| < |run.units|
      requires Entered(run, sources, adapter.db.severing, before, first, earlier)
      requires Extends(before, adapter.At()) && base < |before.trail| && Succeeded(before.server.durable.history) == first + |earlier|
      requires AllCandid(sources, first, earlier) ==> !before.half
      requires entries == earlier || Opens(first + |earlier|, StoreOf(before.server.durable), before.half, earlier)
      requires run.units[first + |earlier|].mode.RESTARTABLE? && Succeeded(adapter.db.server.durable.history) > first + |earlier| ==>
                 entries != earlier && Vouched(sources[first + |earlier|], adapter.db.severing, adapter.At(), Last(entries))
      ensures Entered(run, sources, adapter.db.severing, adapter.At(), first, entries) && |earlier| <= |entries| <= |earlier| + 1
      ensures entries != earlier ==> |entries| == |earlier| + 1
      ensures Start() == before.trail[base]
      ensures entries != earlier && AllCandid(sources, first, entries) ==>
                !before.half && CandidSource(sources[first + |earlier|], StoreOf(before.server.durable))
    {
      hide LegalEntry, Vouched, CandidSource, Ended, Entered;
      StillEntered(run, sources, adapter.db.severing, before, adapter.At(), first, earlier);
      if entries != earlier {
        assert forall j | 0 <= j < |earlier| :: entries[j] == Front(entries)[j];
        OneMoreEntry(run, sources, adapter.db.severing, adapter.At(), first, earlier, Last(entries));
        assert entries == earlier + [Last(entries)];
      }
    }

    /** Units run in plan order; what was executed is a prefix of what was
        pending, whatever stops the run. */
    method Execute(plan: Plan) returns (o: Outcome)
      requires Ready(plan.successCount) && executed == [] && entries == [] && !adapter.latch.Half()
      requires |adapter.db.server.durable.history| <= |run.units|
      requires Describes(plan, adapter.db.server.durable.history, run.units)
      requires plan.active.Some? && plan.activeChanged ==> run.recover == Some(plan.active.value.id)
      requires Succeeded(Start().history) == plan.successCount
      modifies this`entries, this`executed, adapter, adapter.db, adapter.latch
      ensures Lawful() && Extends(old(adapter.At()), adapter.At()) && Ledger()
      ensures o.Done? ==> executed == Remaining(Start()) && Ready(|run.units|)
      ensures plan.pending == [] ==> o.Done? && adapter.At() == old(adapter.At()) && executed == []
      ensures var p := PlayedOut(run.units, sources, plan.successCount, StoreOf(old(adapter.db.server).durable));
              !adapter.db.faulty && p.Some? ==> o.Done? && StoreOf(adapter.db.server.durable) == p.value
    {
      hide Lawful, Idle, AtUnit, Ledger, Poised, OwnActive, Extends, PlayedOut, PlaySource, Remaining, Ids;
      SetOut(plan);
      ghost var first, p := plan.successCount, PlayedOut(run.units, sources, plan.successCount, StoreOf(adapter.db.server.durable));
      ExtendsNothing(adapter.At());
      for i := 0 to |plan.pending|
        invariant Poised(plan, i) && Extends(old(adapter.At()), adapter.At())
        invariant i == 0 ==> adapter.At() == old(adapter.At())
        invariant !adapter.db.faulty && p.Some? ==> PlayedOut(run.units, sources, first + i, StoreOf(adapter.db.server.durable)) == p
      {
        PlaysOn(run.units, sources, first + i, StoreOf(adapter.db.server.durable));
        ghost var middle := adapter.At();
        o := RunPlanned(plan, i);
        ExtendsComposes(old(adapter.At()), middle, adapter.At());
        :- o;
      }
      Arrived(plan);
      PlaysOn(run.units, sources, |run.units|, StoreOf(adapter.db.server.durable));
      return Done;
    }

    lemma {:induction false} SetOut(plan: Plan)
      requires Ready(plan.successCount) && executed == [] && entries == [] && !adapter.latch.Half()
      requires |adapter.db.server.durable.history| <= |run.units|
      requires Describes(plan, adapter.db.server.durable.history, run.units)
      requires Succeeded(Start().history) == plan.successCount
      ensures Poised(plan, 0) && forall i | 0 <= i < |plan.pending| :: OwnActive(plan, i)
      ensures |sources| == |run.units| && plan.successCount <= |run.units| && plan.pending == run.units[plan.successCount..]
    {
      hide Step, StepsFrom;
      forall i | 0 <= i < |plan.pending| ensures OwnActive(plan, i) {
        PlannedActive(plan, adapter.db.server.durable.history, run.units, i);
      }
    }

    lemma {:induction false} Arrived(plan: Plan)
      requires Poised(plan, |plan.pending|) && plan.successCount <= |run.units| && plan.pending == run.units[plan.successCount..]
      ensures Lawful() && Ledger() && executed == Remaining(Start()) && Ready(|run.units|)
      ensures plan.pending == [] ==> executed == []
    {
    }

    // -------------------------------------------- namespace and planning

    /** Recovery is for initialized namespaces only. */
    function AdmitRecoveryNamespace(state: MetadataState): (o: Outcome)
      ensures o.Done? <==> run.recover.None? || state.COMPLETE?
    {
      if run.recover.None? || state.COMPLETE? then Done
      else if state.DAMAGED? then Raised(MetadataDamaged("metadata is damaged; --recover was not considered"))
      else Raised(Validation("--recover requires an ACTIVE restartable migration"))
    }

    method InitializeIfNeeded(state: MetadataState) returns (o: Outcome)
      requires Lawful() && Idle(adapter.At()) && Physical(adapter.db.server.durable)
      requires state == Inspect(adapter.db.server.durable, adapter.db.definitionProblems)
      modifies adapter, adapter.db, adapter.latch
      ensures Lawful() && Extends(old(adapter.At()), adapter.At())
      ensures state.COMPLETE? || state.DAMAGED? ==> Unmoved(old(adapter.At()), adapter.At())
      ensures o.Done? ==>
                && Idle(adapter.At()) && adapter.db.server.durable.marker == Some(LAYOUT_VERSION)
                && (state.COMPLETE? || (adapter.db.server.durable.history == [] && adapter.db.server.durable.progress == []))
      ensures (&& !adapter.db.faulty && !adapter.db.definitionProblems && bindingsMatch && !state.DAMAGED?
               && (state.COMPLETE? ==> adapter.db.server.durable.marker == Some(LAYOUT_VERSION))) ==> o.Done?
      ensures adapter.db.server.durable.app == old(adapter.db.server).durable.app
      ensures o.Done? ==> adapter.latch.state == old(adapter.latch.state)
      ensures state.DAMAGED? ==> o.Raised? && o.error.MetadataDamaged?
      ensures state.COMPLETE? && adapter.db.server.durable.marker != Some(LAYOUT_VERSION) ==> o.Raised? && o.error.MetadataDamaged?
      ensures state.COMPLETE? && adapter.db.server.durable.marker == Some(LAYOUT_VERSION) && !bindingsMatch ==> o.Raised? && o.error.Usage?
      ensures state.COMPLETE? || state.DAMAGED? ==> adapter.latch.error == old(adapter.latch.error)
    {
      hide Step, StepsFrom, Ended, Orderly, LegalEntry, WellFormedCapture, Extends;
      ExtendsNothing(adapter.At());
      InspectionMeans(adapter.db.server.durable, adapter.db.definitionProblems);
      if state.DAMAGED? {
        return Raised(MetadataDamaged("metadata is damaged or incompatible; nothing is recreated"));
      }
      if state.ABSENT? || state.INCOMPLETE_COMPATIBLE? {
        o := InitializeAndInspect();
        :- o;
      }
      o := VerifyBindings();
    }

    /** Initialize, and inspect once more. */
    method InitializeAndInspect() returns (o: Outcome)
      requires Lawful() && Idle(adapter.At()) && Virgin(adapter.db.server.durable)
      modifies adapter, adapter.db, adapter.latch
      ensures Lawful() && Extends(old(adapter.At()), adapter.At())
      ensures o.Done? ==>
                && Idle(adapter.At()) && adapter.db.server.durable.marker == Some(LAYOUT_VERSION)
                && adapter.db.server.durable.history == [] && adapter.db.server.durable.progress == []
      ensures !adapter.db.faulty && !adapter.db.definitionProblems ==> o.Done?
      ensures adapter.db.server.durable.app == old(adapter.db.server).durable.app
      ensures o.Done? ==> adapter.latch.state == old(adapter.latch.state)
    {
      hide Step, StepsFrom, Ended, Orderly, LegalEntry, WellFormedCapture, Extends;
      o := adapter.Initialize();
      ghost var initialized := adapter.At();
      InitTrailSteps(run, old(adapter.db.trail), adapter.db.trail, base);
      ChartedSame(adapter.db.severing, run.units, sources, course, old(adapter.db.trail), adapter.db.trail, base);
      :- o;
      var after := adapter.InspectMetadata();
      ExtendsComposes(old(adapter.At()), initialized, adapter.At());
      if after.Threw? {
        return Raised(after.error);
      }
      return if after.value.COMPLETE? then Done else Raised(MetadataDamaged("metadata is not complete after initialization"));
    }

    /** The marker's layout version and the recorded bindings. */
    function VerifyBindings(): (o: Outcome)
      reads adapter.db
      ensures o.Done? ==> adapter.db.server.durable.marker == Some(LAYOUT_VERSION)
      ensures bindingsMatch && adapter.db.server.durable.marker == Some(LAYOUT_VERSION) ==> o.Done?
      ensures adapter.db.server.durable.marker != Some(LAYOUT_VERSION) ==> o.Raised? && o.error.MetadataDamaged?
      ensures adapter.db.server.durable.marker == Some(LAYOUT_VERSION) && !bindingsMatch ==> o.Raised? && o.error.Usage?
    {
      var marker := adapter.db.server.durable.marker;
      if marker.None? then Raised(MetadataDamaged("initialization marker is missing"))
      else if marker.value != LAYOUT_VERSION then Raised(MetadataDamaged("layout_version"))
      else if !bindingsMatch then Raised(Usage("binding mismatch"))
      else Done
    }

    /** The referee's decision on what is durable: the plan, and whether this run
        may follow it. */
    method Judge(t: Tables) returns (r: Result<Plan>)
      requires WellFormedCapture(run.units) && InKeyOrder(t.history) && t.marker == Some(LAYOUT_VERSION)
      ensures r.Returned? ==>
                && AtUnit(run, r.value.successCount, t) && |t.history| <= |run.units|
                && Describes(r.value, t.history, run.units)
                && (r.value.active.Some? && r.value.activeChanged ==> run.recover == Some(r.value.active.value.id))
      ensures run.recover.None? && Sound(t) && Published(t.history, run.units) ==> r.Returned?
      ensures r.Returned? <==> PlanRefusal(t).None?
      ensures r.Threw? ==> r.error.IsOwn() && r.error.ExitCode() == PlanRefusal(t).value
      ensures WellShaped(Snap(t)) && RowsFit(t.history, run.units) && run.recover.None? && Amended(t.history, run.units) ==>
                r.Threw? && exists row :: row in t.history && row.status == ACTIVE && r.error == RecoveryRequired(row.id)
    {
      hide SupportedFingerprint, Ordered, Shaped, Published, RowsFit, PlanOf, Amended, Agrees, Describes, WellShaped, AtUnit, Sound;
      OrderedIsIdentityInKeyOrder(t.history);
      PublishedIsPlanned(t, run.units);
      AgreementIfShaped(t);
      PublishedIsNotAmended(t);
      r := BuildPlan(run.units, Snap(t));
      if r.Returned? {
        Admission(t, r.value);
        var o := if run.recover.None? then RequireNoRecoveryNeeded(r.value)
                 else CheckRecoveryAdmission(r.value, run.units, run.recover.value);
        if o.Raised? {
          r := Threw(o.error);
        }
      }
    }

    lemma {:induction false} PublishedIsNotAmended(t: Tables)
      ensures Sound(t) && Published(t.history, run.units) ==> !Amended(t.history, run.units)
    {
      hide SupportedFingerprint;
    }

    lemma {:induction false} AgreementIfShaped(t: Tables)
      requires Ordered(t.history) == t.history
      ensures WellShaped(Snap(t)) && Agrees(t.history, run.units) ==> RowsFit(t.history, run.units)
    {
      hide Ordered, RowsFit, Agrees;
      if WellShaped(Snap(t)) {
        AgreementIsFieldwise(t.history, run.units);
      }
    }

    /** Whether this run may follow a plan. */
    lemma {:induction false} Admission(t: Tables, plan: Plan)
      requires WellFormedCapture(run.units) && t.marker == Some(LAYOUT_VERSION) && Ordered(t.history) == t.history
      requires WellShaped(Snap(t)) && Agrees(t.history, run.units) && Describes(plan, t.history, run.units)
      ensures AtUnit(run, plan.successCount, t) && |t.history| <= |run.units|
      ensures plan.active.Some? && plan.activeChanged <==> Amended(t.history, run.units)
      ensures plan.active.Some? ==> plan.active.value in t.history && plan.active.value.status == ACTIVE
      ensures run.recover.Some? ==>
                (CheckRecoveryAdmission(plan, run.units, run.recover.value).Done? <==>
                   exists row | row in t.history :: row.status == ACTIVE && row.id == run.recover.value)
    {
      hide SupportedFingerprint, CheckRecoveryAdmission, Ordered;
      OnlyActive(t.history, plan, run.units);
      if run.recover.Some? {
        RecoveryOfAPlan(plan, t.history, run.units, run.recover.value);
      }
    }

    /** Why the referee would refuse initialized metadata, as an exit code: rows that
        contradict one another, rows that contradict the manifest, an amended ACTIVE
        migration without `--recover`, or `--recover` of one that is not ACTIVE. */
    ghost function PlanRefusal(t: Tables): Option<Exit> {
      if !WellShaped(Snap(t)) then Some(METADATA_DAMAGED)
      else if !RowsFit(t.history, run.units) then Some(VALIDATION)
      else if run.recover.None? then
        if Amended(t.history, run.units) then Some(VALIDATION) else None
      else
        if exists row | row in t.history :: row.status == ACTIVE && row.id == run.recover.value then None else Some(VALIDATION)
    }

    /** Why a run would be refused before it executes anything. */
    ghost function Refusal(t: Tables): Option<Exit> {
      if Damaged(t, adapter.db.definitionProblems) then Some(METADATA_DAMAGED)
      else if t.marker.None? then
        if run.recover.Some? then Some(VALIDATION) else None
      else if t.marker.value != LAYOUT_VERSION then Some(METADATA_DAMAGED)
      else if !bindingsMatch then Some(USAGE)
      else PlanRefusal(t)
    }

    /** Read the snapshot and let the referee decide. */
    method PlanRun() returns (r: Result<Plan>)
      requires Lawful() && Idle(adapter.At()) && InKeyOrder(adapter.db.server.durable.history)
      requires adapter.db.server.durable.marker == Some(LAYOUT_VERSION)
      modifies adapter.db`calls, adapter.db`interrupts, adapter.latch
      ensures Lawful() && Extends(old(adapter.At()), adapter.At()) && Unmoved(old(adapter.At()), adapter.At())
      ensures r.Returned? ==>
                && adapter.latch.error.None?
                && AtUnit(run, r.value.successCount, adapter.db.server.durable)
                && |adapter.db.server.durable.history| <= |run.units|
                && Describes(r.value, adapter.db.server.durable.history, run.units)
                && (r.value.active.Some? && r.value.activeChanged ==> run.recover == Some(r.value.active.value.id))
      ensures (&& !adapter.db.faulty && run.recover.None? && Sound(adapter.db.server.durable)
               && Published(adapter.db.server.durable.history, run.units)) ==> r.Returned?
      ensures r.Returned? ==> adapter.latch.state == old(adapter.latch.state)
      ensures PlanRefusal(adapter.db.server.durable).Some? ==>
                && r.Threw?
                && (!adapter.db.faulty ==> r.error.IsOwn() && r.error.ExitCode() == PlanRefusal(adapter.db.server.durable).value && adapter.latch.error.None?)
    {
      hide Step, StepsFrom, Ended, Orderly, LegalEntry, AtUnit, Describes, Sound, Published;
      var o := adapter.Fetch(Reading(adapter.db.server.TxnId(), ACK), "metadata snapshot read");
      if o.Raised? {
        return Threw(o.error);
      }
      r := Judge(adapter.db.server.durable);
    }

    // --------------------------------------------------------- top level

    /** Ask for the namespace lock. */
    method AcquireLock() returns (o: Outcome)
      requires adapter.Valid() && adapter.latch.error.None?
      modifies adapter.db`calls, adapter.db`interrupts
      ensures adapter.Valid() && Unmoved(old(adapter.At()), adapter.At()) && adapter.latch.state == old(adapter.latch.state)
      ensures adapter.db.calls == old(adapter.db.calls) || adapter.db.calls == old(adapter.db.calls) + [Locking]
      ensures o.Done? ==> adapter.db.calls == old(adapter.db.calls) + [Locking]
      ensures o.Done? || o == Raised(LockNotAcquired) || (o == Raised(Interrupt) && adapter.db.interrupts != [])
      ensures !adapter.db.faulty ==> o.Done?
      ensures Extends(old(adapter.At()), adapter.At())
    {
      hide Ended, Orderly, Quiet, Attended;
      OneMoreCall(adapter.db.calls, adapter.db.interrupts, Locking);
      var granted := adapter.db.Lock();
      if !granted {
        return Raised(LockNotAcquired);
      }
      o := adapter.Tick();
    }

    /** Preflight, connection and storage preparation: nothing they submit can
        commit, so they fail with an ordinary error or an interrupt. */
    method SetUp(e: Error) returns (o: Outcome)
      requires e.IsOwn() && adapter.Valid()
      modifies adapter.db`interrupts
      ensures adapter.Valid() && old(adapter.db.interrupts) <= adapter.db.interrupts
      ensures o.Done? || o == Raised(e) || (o == Raised(Interrupt) && adapter.db.interrupts != [])
      ensures !adapter.db.faulty ==> o.Done?
    {
      var failing := adapter.db.Fault();
      if failing {
        return Raised(e);
      }
      o := adapter.Tick();
    }

    /** The state every run starts from: an idle session over tables that a
        database can hold. */
    ghost predicate Fresh()
      reads this, adapter, adapter.db, adapter.latch
    {
      && Lawful() && Idle(adapter.At()) && !adapter.latch.Half()
      && !reported && exitCode.OK? && !connected && executed == [] && entries == []
      && base == |adapter.db.trail| - 1
      && Physical(adapter.db.server.durable) && InKeyOrder(adapter.db.server.durable.history)
    }

    /** Everything a plain `migrate` needs to find in the namespace. */
    ghost predicate Admissible(t: Tables) {
      && run.recover.None?
      && (Virgin(t) || (ALL_OBJECTS <= t.objects && Sound(t) && Published(t.history, run.units)))
    }

    /** Ids of the units that are not SUCCESS. */
    ghost function Remaining(t: Tables): seq<string> {
      if Succeeded(t.history) <= |run.units| then Ids(run.units[Succeeded(t.history)..]) else []
    }

    /** Every unit is durably successful and no checkpoint is left. */
    ghost predicate AllDone(t: Tables) {
      AtUnit(run, |run.units|, t) && !ActiveLast(t.history) && t.progress == []
    }

    /** What a plain fault-free run needs in order to finish: a namespace as earlier
        runs leave it, and sources that run through from the data in it. */
    ghost function Finish(t: Tables): Option<Store>
      requires |sources| == |run.units|
    {
      if Admissible(t) then PlayedOut(run.units, sources, Succeeded(t.history), StoreOf(t)) else None
    }

    lemma {:induction false} PlainFinish()
      requires |sources| == |run.units|
      ensures forall t :: Finish(t).Some? ==> run.recover.None?
    {
    }

    /** From connection to the last unit. */
    method Attempt() returns (o: Outcome)
      requires Fresh()
      modifies this`connected, this`entries, this`executed, adapter, adapter.db, adapter.latch
      ensures Lawful() && Extends(old(adapter.At()), adapter.At()) && Ledger()
      ensures o.Done? ==> executed == Remaining(Start()) && Idle(adapter.At()) && AllDone(adapter.db.server.durable)
      ensures o.Done? ==> connected
      ensures !connected ==> adapter.At() == old(adapter.At())
      ensures run.recover.Some? && !Inspect(old(adapter.db.server).durable, adapter.db.definitionProblems).COMPLETE? ==>
                o.Raised? && Unmoved(old(adapter.At()), adapter.At()) && executed == []
      ensures AllDone(old(adapter.db.server).durable) ==> Unmoved(old(adapter.At()), adapter.At()) && executed == []
      ensures !adapter.db.faulty && !adapter.db.definitionProblems && bindingsMatch && Finish(old(adapter.db.server).durable).Some? ==>
                o.Done? && StoreOf(adapter.db.server.durable) == Finish(old(adapter.db.server).durable).value
      ensures Refusal(old(adapter.db.server).durable).Some? ==>
                && o.Raised? && Unmoved(old(adapter.At()), adapter.At()) && executed == []
                && (!adapter.db.faulty ==> o.error.IsOwn() && o.error.ExitCode() == Refusal(old(adapter.db.server).durable).value && adapter.latch.error.None?)
      ensures LockedFirst(old(adapter.db.calls), adapter.db.calls)
      ensures adapter.db.calls == old(adapter.db.calls) || LockedSince(old(adapter.db.calls), adapter.db.calls)
      ensures connected && adapter.db.calls == old(adapter.db.calls) && adapter.db.interrupts == [] ==>
                o == Raised(LockNotAcquired) && adapter.latch.error.None?
      ensures !connected && adapter.db.interrupts == [] ==> o.Raised? && (o.error.Validation? || o.error.Usage?) && adapter.latch.error.None?
    {
      hide Step, StepsFrom, WellFormedCapture, Extends, Ledger, Finish, AllDone, Remaining, Inspect, Physical, InKeyOrder, Refusal, LockedFirst, LockedSince;
      ExtendsNothing(adapter.At());
      NoCallYet(adapter.db.calls);
      o := SetUp(Validation("preflight"));
      NothingEntered();
      :- o;
      o := SetUp(Usage("connect"));
      NothingEntered();
      :- o;
      connected := true;
      o := AcquireLock();
      NothingEntered();
      ghost var locked := adapter.At();
      LockTaken(old(adapter.db.calls), locked);
      :- o;
      o := Locked();
      ExtendsComposes(old(adapter.At()), locked, adapter.At());
      LockStays(old(adapter.db.calls), locked, adapter.At());
    }

    /** What is done with the lock held: first of all, to look. */
    method Locked() returns (o: Outcome)
      requires Lawful() && Idle(adapter.At()) && !adapter.latch.Half() && executed == [] && entries == []
      requires Physical(adapter.db.server.durable) && InKeyOrder(adapter.db.server.durable.history)
      requires Start() == adapter.db.server.durable && Locking in adapter.db.calls
      modifies this`entries, this`executed, adapter, adapter.db, adapter.latch
      ensures Lawful() && Extends(old(adapter.At()), adapter.At()) && Ledger()
      ensures o.Done? ==> executed == Remaining(Start()) && Idle(adapter.At()) && AllDone(adapter.db.server.durable)
      ensures run.recover.Some? && !Inspect(old(adapter.db.server).durable, adapter.db.definitionProblems).COMPLETE? ==>
                o.Raised? && Unmoved(old(adapter.At()), adapter.At()) && executed == []
      ensures AllDone(old(adapter.db.server).durable) ==> Unmoved(old(adapter.At()), adapter.At()) && executed == []
      ensures !adapter.db.faulty && !adapter.db.definitionProblems && bindingsMatch && Finish(old(adapter.db.server).durable).Some? ==>
                o.Done? && StoreOf(adapter.db.server.durable) == Finish(old(adapter.db.server).durable).value
      ensures Refusal(old(adapter.db.server).durable).Some? ==>
                && o.Raised? && Unmoved(old(adapter.At()), adapter.At()) && executed == []
                && (!adapter.db.faulty ==> o.error.IsOwn() && o.error.ExitCode() == Refusal(old(adapter.db.server).durable).value && adapter.latch.error.None?)
    {
      hide Step, StepsFrom, WellFormedCapture, Extends, Ledger, Finish, AllDone, Remaining, Physical, InKeyOrder, Inspect, Refusal;
      PlainFinish();
      RecoveryRefused(adapter.db.server.durable);
      var state := adapter.InspectMetadata();
      NothingEntered();
      if state.Threw? {
        return Raised(state.error);
      }
      :- AdmitRecoveryNamespace(state.value);
      ghost var inspected := adapter.At();
      StillLocked(old(adapter.At()), inspected);
      o := UnderLock(state.value);
      ExtendsComposes(old(adapter.At()), inspected, adapter.At());
    }

    /** `--recover` over anything but completed metadata is refused by its kind. */
    lemma {:induction false} RecoveryRefused(t: Tables)
      requires Physical(t)
      ensures var state := Inspect(t, adapter.db.definitionProblems);
              run.recover.Some? && !state.COMPLETE? ==>
                Refusal(t) == Some(if state.DAMAGED? then METADATA_DAMAGED else VALIDATION)
    {
      hide PlanRefusal;
      InspectionMeans(t, adapter.db.definitionProblems);
    }

    /** What follows the inspection, with the namespace lock held throughout. */
    method UnderLock(state: MetadataState) returns (o: Outcome)
      requires Lawful() && Idle(adapter.At()) && !adapter.latch.Half() && executed == [] && entries == []
      requires Physical(adapter.db.server.durable) && InKeyOrder(adapter.db.server.durable.history)
      requires state == Inspect(adapter.db.server.durable, adapter.db.definitionProblems) && Start() == adapter.db.server.durable
      requires (run.recover.None? || state.COMPLETE?) && Locking in adapter.db.calls
      modifies this`entries, this`executed, adapter, adapter.db, adapter.latch
      ensures Lawful() && Extends(old(adapter.At()), adapter.At()) && Ledger()
      ensures o.Done? ==> executed == Remaining(Start()) && Idle(adapter.At()) && AllDone(adapter.db.server.durable)
      ensures AllDone(old(adapter.db.server).durable) ==> Unmoved(old(adapter.At()), adapter.At()) && executed == []
      ensures !adapter.db.faulty && !adapter.db.definitionProblems && bindingsMatch && Finish(old(adapter.db.server).durable).Some? ==>
                o.Done? && StoreOf(adapter.db.server.durable) == Finish(old(adapter.db.server).durable).value
      ensures Refusal(old(adapter.db.server).durable).Some? ==>
                && o.Raised? && Unmoved(old(adapter.At()), adapter.At()) && executed == []
                && (!adapter.db.faulty ==> o.error.IsOwn() && o.error.ExitCode() == Refusal(old(adapter.db.server).durable).value && adapter.latch.error.None?)
    {
      hide Lawful, Ledger, Extends, PlayedOut, Remaining, AtUnit, Describes, Admissible, AllDone, Inspect;
      var plan := Prepare(state);
      ghost var prepared := adapter.At();
      NothingEntered();
      if plan.Threw? {
        return Raised(plan.error);
      }
      o := Execute(plan.value);
      ExtendsComposes(old(adapter.At()), prepared, adapter.At());
      if o.Done? {
        FinishedIsDone();
      }
    }

    lemma {:induction false} NothingEntered()
      requires Lawful() && executed == [] && entries == []
      ensures Ledger()
    {
      NoEntryYet(run, sources, adapter.db.severing, Succeeded(Start().history));
    }

    lemma {:induction false} FinishedIsDone()
      requires Ready(|run.units|)
      ensures AllDone(adapter.db.server.durable)
    {
      EndIsDone(run, adapter.db.server.durable);
    }

    /** Initialize what is missing, and plan. */
    method Prepare(state: MetadataState) returns (r: Result<Plan>)
      requires Lawful() && Idle(adapter.At()) && !adapter.latch.Half()
      requires Physical(adapter.db.server.durable) && InKeyOrder(adapter.db.server.durable.history)
      requires state == Inspect(adapter.db.server.durable, adapter.db.definitionProblems) && Start() == adapter.db.server.durable
      requires run.recover.None? || state.COMPLETE?
      modifies adapter, adapter.db, adapter.latch
      ensures Lawful() && Extends(old(adapter.At()), adapter.At()) && Start() == old(Start())
      ensures r.Returned? ==>
                && Ready(r.value.successCount) && adapter.latch.state == old(adapter.latch.state)
                && |adapter.db.server.durable.history| <= |run.units|
                && Describes(r.value, adapter.db.server.durable.history, run.units)
                && (r.value.active.Some? && r.value.activeChanged ==> run.recover == Some(r.value.active.value.id))
                && Succeeded(Start().history) == r.value.successCount
                && StoreOf(adapter.db.server.durable) == StoreOf(Start())
      ensures AllDone(old(adapter.db.server).durable) ==> Unmoved(old(adapter.At()), adapter.At()) && (r.Returned? ==> r.value.pending == [])
      ensures !adapter.db.faulty && !adapter.db.definitionProblems && bindingsMatch && Admissible(old(adapter.db.server).durable) ==> r.Returned?
      ensures Refusal(old(adapter.db.server).durable).Some? ==>
                && r.Threw? && Unmoved(old(adapter.At()), adapter.At())
                && (!adapter.db.faulty ==> r.error.IsOwn() && r.error.ExitCode() == Refusal(old(adapter.db.server).durable).value && adapter.latch.error.None?)
    {
      hide Step, StepsFrom, Ended, Orderly, WellFormedCapture, Agrees, Shaped;
      InspectionMeans(adapter.db.server.durable, adapter.db.definitionProblems);
      var o := SetUp(Usage("prepare storage"));
      if o.Done? {
        o := InitializeIfNeeded(state);
      }
      if o.Raised? {
        return Threw(o.error);
      }
      ghost var initialized := adapter.At();
      EmptyIsSound(initialized.server.durable, run.units);
      r := PlanRun();
      ExtendsComposes(old(adapter.At()), initialized, adapter.At());
      if r.Returned? {
        AtUnitCounts(run, r.value.successCount, initialized.server.durable);
      }
    }

    // ---------------------------------------------------------- teardown

    /** The recorded outcome answers for the latch, and only a complete run is
        recorded as OK. */
    ghost predicate Honest()
      reads this, adapter, adapter.db, adapter.latch
    {
      reported ==>
        && (adapter.latch.error.Some? ==> adapter.latch.Valid() && exitCode == adapter.latch.error.value.ExitCode())
        && Tells()
        && (exitCode.OK? ==> adapter.latch.error.None? && base < |adapter.db.trail| && executed == Remaining(Start()) && AllDone(adapter.db.server.durable))
    }

    /** The code tells of what was latched. */
    ghost predicate Tells()
      reads this, adapter, adapter.db, adapter.latch
    {
      && (Latching in adapter.db.calls ==> exitCode == UNKNOWN_OUTCOME)
      && (adapter.latch.error.Some? && adapter.latch.state == VIOLATION ==> exitCode == CONTRACT_VIOLATION)
      && (adapter.latch.error.Some? && adapter.latch.state == BATCH_FAILED ==> exitCode == MIGRATION_FAILED)
    }

    /** Let go of the session; a first interrupt is answered by a second attempt. */
    method DiscardQuietly()
      requires adapter.Valid()
      modifies adapter.db`server, adapter.db`calls
      ensures adapter.Valid() && Outlives(old(adapter.At()), adapter.At())
      ensures Discards(old(adapter.db.calls), adapter.db.calls)
    {
      hide Ended, Orderly, Quiet, Attended, Suspect;
      for attempt := 0 to 2
        invariant adapter.Valid() && Outlives(old(adapter.At()), adapter.At())
        invariant |adapter.db.calls| == |old(adapter.db.calls)| + attempt
        invariant attempt > 0 ==> Last(adapter.db.calls).Discarding? && Last(adapter.db.calls).reply.INTERRUPTION?
      {
        var o := adapter.Discard();
        if o != Raised(Interrupt) {
          break;
        }
      }
    }

    /** Close the session; an interrupt falls back to discarding it. */
    method CloseQuietly() returns (o: Outcome)
      requires adapter.Valid() && !adapter.Silent()
      modifies adapter.db`server, adapter.db`calls, adapter.db`interrupts
      ensures adapter.Valid() && Outlives(old(adapter.At()), adapter.At())
      ensures o.Done? || (o == Raised(Interrupt) && adapter.db.faulty)
      ensures old(adapter.db.interrupts) <= adapter.db.interrupts
      ensures LetGo(old(adapter.db.calls), adapter.db.calls)
    {
      hide Ended, Orderly, Quiet, Attended, Suspect;
      o := adapter.Close();
      if o == Raised(Interrupt) {
        DiscardQuietly();
      }
      o := adapter.Tick();
    }

    /** Record one terminal failure. */
    method Fail(e: Error) returns (o: Outcome)
      requires e.IsOwn() && !reported && adapter.Valid()
      modifies this`exitCode, this`reported, adapter.db`interrupts
      ensures adapter.Valid() && (reported ==> exitCode == e.ExitCode())
      ensures if o.Done? then reported else o == Raised(Interrupt)
      ensures !adapter.db.faulty ==> o.Done?
      ensures old(adapter.db.interrupts) <= adapter.db.interrupts
      ensures o.Raised? && !reported ==> adapter.db.interrupts != []
    {
      exitCode := e.ExitCode();
      o := adapter.Tick();
      :- o;
      reported := true;
      o := adapter.Tick();
    }

    /** End a failed run.  If an error is latched it is the one recorded, no matter
        what arrived here; the session is discarded or closed accordingly. */
    method Terminate(e: Error) returns (o: Outcome)
      requires Lawful() && !reported
      modifies this`exitCode, this`reported, this`recoveryId, adapter`engineTransaction, adapter.db`server, adapter.db`calls, adapter.db`interrupts
      ensures Lawful() && Honest() && Outlives(old(adapter.At()), adapter.At())
      ensures if o.Done? then reported else o == Raised(Interrupt)
      ensures reported ==> !exitCode.OK?
      ensures reported && adapter.latch.error.None? && e.IsOwn() ==> exitCode == e.ExitCode()
      ensures o.Done? && adapter.latch.error.None? && e.RecoveryRequired? ==> recoveryId == Some(e.id)
      ensures !adapter.db.faulty && e.IsOwn() ==> o.Done?
      ensures old(adapter.db.interrupts) <= adapter.db.interrupts
      ensures o.Raised? && !reported ==> adapter.db.interrupts != []
      ensures o.Done? && connected ==> adapter.db.calls != [] && (Last(adapter.db.calls).Closing? || Last(adapter.db.calls).Discarding?)
      ensures o.Done? && connected && adapter.Silent() ==> Discards(old(adapter.db.calls), adapter.db.calls)
      ensures o.Done? && connected && LatchedOr(e).IsOwn() && !LatchedOr(e).UnknownOutcome? ==> LetGo(old(adapter.db.calls), adapter.db.calls)
    {
      hide Step, StepsFrom, Ended, Orderly, WellFormedCapture, Quiet, Attended, Charted, Onward, Remaining, AllDone, LegalEntry, Ledger, Finish, Entered, LockedFirst, LockedSince,
           Discards, LetGo, Suspect;
      OnwardStays(adapter.db.server);
      if adapter.latch.error.None? && !e.IsOwn() {
        o := HandleInterruption();
        return;
      }
      var error := LatchedOr(e);
      :- Fail(error);
      if error.RecoveryRequired? {
        recoveryId := Some(error.id);
      }
      o := LeaveSession(error.UnknownOutcome?);
    }

    /** Discard the session after an unknown outcome, close it otherwise. */
    method LeaveSession(unknown: bool) returns (o: Outcome)
      requires adapter.Valid() && (adapter.Silent() ==> unknown)
      modifies adapter.db`server, adapter.db`calls, adapter.db`interrupts
      ensures adapter.Valid() && Outlives(old(adapter.At()), adapter.At())
      ensures o.Done? || (o == Raised(Interrupt) && adapter.db.faulty)
      ensures old(adapter.db.interrupts) <= adapter.db.interrupts
      ensures Latching in adapter.db.calls <==> Latching in old(adapter.db.calls)
      ensures connected && unknown ==> Discards(old(adapter.db.calls), adapter.db.calls)
      ensures connected && !unknown ==> LetGo(old(adapter.db.calls), adapter.db.calls)
      ensures connected ==> adapter.db.calls != [] && (Last(adapter.db.calls).Closing? || Last(adapter.db.calls).Discarding?)
      ensures !connected ==> adapter.db.calls == old(adapter.db.calls)
    {
      hide Ended, Orderly, Quiet, Attended, Suspect, Onward;
      OnwardStays(adapter.db.server);
      if connected {
        if unknown {
          DiscardQuietly();
        } else {
          o := CloseQuietly();
          return;
        }
      }
      return Done;
    }

    /** An interrupt with nothing latched ends as a failed migration. */
    method HandleInterruption() returns (o: Outcome)
      requires Lawful() && !reported && adapter.latch.error.None?
      modifies this`exitCode, this`reported, adapter`engineTransaction, adapter.db`server, adapter.db`calls, adapter.db`interrupts
      ensures Lawful() && Honest() && Outlives(old(adapter.At()), adapter.At())
      ensures if o.Done? then reported else o == Raised(Interrupt)
      ensures reported ==> exitCode.MIGRATION_FAILED?
      ensures old(adapter.db.interrupts) <= adapter.db.interrupts
      ensures o.Raised? && !reported ==> adapter.db.interrupts != []
      ensures o.Done? && connected ==> adapter.db.calls != [] && (Last(adapter.db.calls).Closing? || Last(adapter.db.calls).Discarding?)
      ensures o.Done? && connected && !adapter.latch.Unknown() ==>
                |adapter.db.calls| > |old(adapter.db.calls)| && adapter.db.calls[|old(adapter.db.calls)|].RollingBack?
    {
      hide Step, StepsFrom, Ended, Orderly, LegalEntry, WellFormedCapture;
      :- Fail(MigrationFailed("interrupted"));
      if connected {
        :- RollbackQuietly();
        :- CloseQuietly();
      }
      return Done;
    }

    method RunToEnd() returns (o: Outcome)
      requires Fresh()
      modifies this, adapter, adapter.db, adapter.latch
      ensures Lawful() && Honest() && Ledger() && old(adapter.db.trail) <= adapter.db.trail && old(adapter.db.calls) <= adapter.db.calls
      ensures if o.Done? then reported else o == Raised(Interrupt)
      ensures RunEffect(old(adapter.At()))
      ensures o.Raised? && !reported ==> adapter.db.interrupts != []
      ensures o.Done? && connected ==> adapter.db.calls != [] && (Last(adapter.db.calls).Closing? || Last(adapter.db.calls).Discarding?)
    {
      hide Step, StepsFrom, WellFormedCapture, Finish, Entered, Onward, AllDone, Remaining, Inspect, Physical, InKeyOrder,
           Refusal, LockedFirst, LockedSince, Quiet, Attended, Charted, Ended, Orderly, Suspect, Tells;
      NoEntryYet(run, sources, adapter.db.severing, Succeeded(Start().history));
      NoCallYet(adapter.db.calls);
      o := adapter.Tick();
      :- o;
      started := true;
      o := Attempt();
      ghost var attempted := adapter.At();
      o := Conclude(o);
      LedgerOutlives(attempted);
      LockOutlives(old(adapter.db.calls), attempted, adapter.At());
    }

    /** Record how the attempt ended, and let go of the session. */
    method Conclude(result: Outcome) returns (o: Outcome)
      requires Lawful() && !reported && exitCode.OK?
      requires result.Done? ==> connected && executed == Remaining(Start()) && Idle(adapter.At()) && AllDone(adapter.db.server.durable)
      modifies this`exitCode, this`reported, this`recoveryId, adapter`engineTransaction, adapter.db`server, adapter.db`calls, adapter.db`interrupts
      ensures Lawful() && Honest() && Outlives(old(adapter.At()), adapter.At())
      ensures if o.Done? then reported else o == Raised(Interrupt)
      ensures reported ==> (exitCode.OK? <==> result.Done?)
      ensures reported && result.Raised? && adapter.latch.error.None? && result.error.IsOwn() ==> exitCode == result.error.ExitCode()
      ensures !adapter.db.faulty && (result.Done? || result.error.IsOwn()) ==> o.Done?
      ensures old(adapter.db.interrupts) <= adapter.db.interrupts
      ensures o.Raised? && !reported ==> adapter.db.interrupts != []
      ensures o.Done? && connected ==> adapter.db.calls != [] && (Last(adapter.db.calls).Closing? || Last(adapter.db.calls).Discarding?)
    {
      hide Step, StepsFrom, WellFormedCapture, Onward, AllDone, Remaining, Quiet, Attended, Charted;
      if result.Raised? {
        o := Terminate(result.error);
        return;
      }
      OnwardStays(adapter.db.server);
      o := adapter.Tick();
      :- o;
      reported := true;
      o := CloseQuietly();
    }

    lemma {:induction false} LedgerOutlives(before: Session)
      requires base < |before.trail| && Outlives(before, adapter.At())
      requires Entered(run, sources, adapter.db.severing, before, Succeeded(before.trail[base].history), entries)
      ensures Entered(run, sources, adapter.db.severing, adapter.At(), Succeeded(Start().history), entries)
    {
      StillEntered(run, sources, adapter.db.severing, before, adapter.At(), Succeeded(before.trail[base].history), entries);
    }

    /** What a run amounts to, whatever happened in it. */
    ghost predicate RunEffect(before: Session)
      requires |sources| == |run.units|
      reads this, adapter, adapter.db, adapter.latch
    {
      var start, db := before.server.durable, adapter.db;
      && (run.recover.Some? && !Inspect(start, db.definitionProblems).COMPLETE? ==> db.trail == before.trail && executed == [])
      && (AllDone(start) ==> db.trail == before.trail && executed == [])
      && (Refusal(start).Some? ==>
            && db.trail == before.trail && executed == [] && (reported ==> !exitCode.OK?)
            && (!db.faulty ==> reported && exitCode == Refusal(start).value))
      && LockedFirst(before.calls, db.calls)
      && (reported && db.interrupts == [] && !LockedSince(before.calls, db.calls) ==>
            if connected then exitCode == LOCK_NOT_ACQUIRED else exitCode == VALIDATION || exitCode == USAGE)
      && (!db.faulty && !db.definitionProblems && bindingsMatch && Finish(start).Some? ==>
            reported && exitCode.OK? && executed == Remaining(start) && StoreOf(db.server.durable) == Finish(start).value)
    }

    /** Finish a run whose teardown was interrupted: what is recorded stays. */
    method SettleInterruptedTeardown() returns (o: Outcome)
      requires Lawful() && Honest()
      modifies this`exitCode, this`reported, adapter.db`server, adapter.db`calls, adapter.db`interrupts
      ensures Lawful() && Honest() && Outlives(old(adapter.At()), adapter.At())
      ensures old(reported) ==> reported && exitCode == old(exitCode)
      ensures !old(reported) && reported ==> !exitCode.OK?
      ensures if o.Done? then reported else o == Raised(Interrupt)
      ensures old(adapter.db.interrupts) <= adapter.db.interrupts
      ensures Discards(old(adapter.db.calls), adapter.db.calls)
    {
      hide Step, StepsFrom, Ended, Orderly, LegalEntry, WellFormedCapture;
      DiscardQuietly();
      if !reported {
        :- Fail(LatchedOr(MigrationFailed("interrupted")));
      }
      o := adapter.Tick();
    }

    /** A whole run.  Every durable state it leaves behind, at any moment, is
        reached by protocol steps; what it executed is a prefix of what was left to
        do; author code was entered once for each of these units, in legal states,
        and every batch under a SUCCESS row is vouched for; no driver call but
        `discard` follows the latching of an unknown outcome; the report answers
        for the first latched error.  A run over a finished namespace changes
        nothing, `--recover` of an uninitialized one creates nothing, and a
        fault-free run of sources that run through finishes them all, with the
        data they play to. */
    method Go() returns (o: Outcome)
      requires Fresh()
      modifies this, adapter, adapter.db, adapter.latch
      ensures Lawful() && Honest() && Ledger() && Start() == old(adapter.db.server).durable
      ensures old(adapter.db.trail) <= adapter.db.trail && old(adapter.db.calls) <= adapter.db.calls
      ensures Quiet(adapter.db.calls) && (adapter.Silent() <==> Latching in adapter.db.calls)
      ensures forall i | 0 <= i < |adapter.db.calls| && InDoubt(adapter.db.calls[i]) && Undisturbed(adapter.db.interrupts, i) ::
                Latching in adapter.db.calls || adapter.latch.Half()
      ensures adapter.latch.Half() ==> adapter.db.interrupts != []
      ensures Latching in adapter.db.calls ==> Suspect(adapter.db.calls, adapter.db.interrupts)
      ensures if o.Done? then reported else o == Raised(Interrupt)
      ensures RunEffect(old(adapter.At()))
      ensures o.Done? && connected ==> adapter.db.calls != [] && (Last(adapter.db.calls).Closing? || Last(adapter.db.calls).Discarding?)
    {
      hide Step, StepsFrom, Ended, Orderly, LegalEntry, WellFormedCapture, Honest, AllDone, Finish, Entered, Onward, Refusal, LockedFirst, LockedSince, Charted, Remaining;
      o := RunToEnd();
      ghost var ran := adapter.At();
      if o.Raised? {
        o := SettleInterruptedTeardown();
        LedgerOutlives(ran);
        LockOutlives(old(adapter.db.calls), ran, adapter.At());
      }
    }
  }

  // ------------------------------------------- batches that were not durable

  /** The server after BEGIN. */
  function Opening(s: Server): Server {
    s.(txn := Open(s.nextId, s.durable, false, false), nextId := s.nextId + 1)
  }

  function Applying(s: Server, sql: Sql): Server
    requires s.txn.Open?
  {
    s.(txn := s.txn.(work := Effect(sql, s.txn.work)))
  }

  /** The server after the completion of migration `id`, all of it acknowledged. */
  function Completing(s: Server, id: string, now: nat): Server {
    Landing(Applying(Applying(Opening(s), UpdateSuccess(id, now)), DeleteProgress(id)))
  }

  /** Unit `k` has been admitted and its author code is running. */
  ghost predicate Running(run: Run, k: nat, t: Tables) {
    && AtUnit(run, k, t) && k < |run.units| && ActiveLast(t.history)
    && Last(t.history).fingerprint == run.units[k].fingerprint && Last(t.history).language == run.units[k].language
  }

  /** Where nothing is latched, no engine transaction is marked open and the server
      has none either, nothing stands in the way of completion. */
  lemma {:induction false} IdleCanComplete(run: Run, k: nat, s: Session, now: nat)
    requires Running(run, k, s.server.durable) && Idle(s)
    ensures var id := run.units[k].id;
            var updated := Applying(Opening(s.server), UpdateSuccess(id, now));
            var final := Completing(s.server, id, now);
            && Begins(s.server, ACK, Opening(s.server)) && Executes(Opening(s.server), UpdateSuccess(id, now), ACK, updated, false)
            && Executes(updated, DeleteProgress(id), ACK, Applying(updated, DeleteProgress(id)), false)
            && Commits(Applying(updated, DeleteProgress(id)), ACK, final)
            && Completes(run, s.server.durable, final.durable) && final.durable.app == s.server.durable.app
  {
    SuccessUpdateCompletes(run, s.server.durable, run.units[k], now) by {
      assert |s.server.durable.history| == k + 1;
    }
  }

  /** How an interrupt loses a cleanly exited batch under a SUCCESS row: a statement
      fails and the server aborts the transaction; the author catches that, and the
      exit, finding no identity to read, rolls back, which takes the mark off; and
      an interrupt that the author swallows comes before the latching. */
  lemma {:induction false} TornBatchCanComplete(run: Run, k: nat, s: Session, write: Write, now: nat)
    requires Running(run, k, s.server.durable) && Idle(s) && !s.half && Orderly(s.server)
    ensures var begun := s.(server := Opening(s.server), flag := true);
            var written := begun.(server := Applying(begun.server, AuthorStatement(Some(write))));
            var torn := written.(server := written.server.(txn := written.server.txn.(aborted := true)));
            var left := torn.(server := torn.server.(txn := NoTxn), flag := false);
            var exit := Exited(torn.server.TxnId(), torn.server.txn.work, |s.trail|, Unlatched, false, true);
            && Executes(begun.server, AuthorStatement(Some(write)), ACK, written.server, false)
            && Executes(written.server, AuthorStatement(None), REJECTION, torn.server, false)
            && RollsBack(torn.server, ACK, left.server)
            && Idle(left) && !left.half
            && Completes(run, s.server.durable, Completing(left.server, run.units[k].id, now).durable)
            && exit.content.app == s.server.durable.app + [write]
            && Completing(left.server, run.units[k].id, now).durable.app == s.server.durable.app
            && !Landed(left.server, exit) && Explained(left, false, exit)
  {
    IdleCanComplete(run, k, s.(server := Opening(s.server).(txn := NoTxn)), now);
  }

  /** And so does one that falls between the two assignments of the latching: the
      latch is taken, so that no later failure can be latched either, and speaks
      to nobody. */
  lemma {:induction false} HalfLatchedBatchCanComplete(run: Run, k: nat, s: Session, write: Write, now: nat)
    requires Running(run, k, s.server.durable) && Idle(s) && !s.half && Orderly(s.server)
    ensures var begun := s.(server := Opening(s.server), flag := true);
            var written := begun.(server := Applying(begun.server, AuthorStatement(Some(write))));
            var torn := written.(server := written.server.(txn := written.server.txn.(aborted := true)));
            var left := torn.(server := torn.server.(txn := NoTxn), flag := false, half := true);
            var exit := Exited(torn.server.TxnId(), torn.server.txn.work, |s.trail|, Unlatched, false, false);
            var failure := MigrationFailed("restartable_batch");
            && Executes(begun.server, AuthorStatement(Some(write)), ACK, written.server, false)
            && Executes(written.server, AuthorStatement(None), REJECTION, torn.server, false)
            && RollsBack(torn.server, ACK, left.server)
            && Latches(UNLATCHED, None, BATCH_FAILED, failure, true, BATCH_FAILED, None, Raised(Interrupt))
            && Latches(BATCH_FAILED, None, BATCH_FAILED, failure, false, BATCH_FAILED, None, Done)
            && Idle(left)
            && Completes(run, s.server.durable, Completing(left.server, run.units[k].id, now).durable)
            && exit.content.app == s.server.durable.app + [write]
            && Completing(left.server, run.units[k].id, now).durable.app == s.server.durable.app
            && !Landed(left.server, exit) && Explained(left, false, exit) && !Explained(left.(half := false), false, exit)
  {
    IdleCanComplete(run, k, s.(server := Opening(s.server).(txn := NoTxn)), now);
  }

  /** And how it is lost without any interrupt: the COMMIT of the clean exit is
      definitely refused, so that the mark stays and nothing is latched; the author
      catches that error and exits the batch again with it, which rolls back and
      takes the mark off. */
  lemma {:induction false} WithdrawnBatchCanComplete(run: Run, k: nat, s: Session, write: Write, now: nat)
    requires Running(run, k, s.server.durable) && Idle(s) && !s.half && Orderly(s.server)
    ensures var begun := s.(server := Opening(s.server), flag := true);
            var written := begun.(server := Applying(begun.server, AuthorStatement(Some(write))));
            var left := written.(server := written.server.(txn := NoTxn), flag := false);
            var exit := Exited(written.server.TxnId(), written.server.txn.work, |s.trail|, Withdrawn, true, false);
            && Executes(begun.server, AuthorStatement(Some(write)), ACK, written.server, false)
            && Commits(written.server, REJECTION, written.server) && written.flag && written.latch.None?
            && RollsBack(written.server, ACK, left.server)
            && Idle(left) && !left.half
            && Completes(run, s.server.durable, Completing(left.server, run.units[k].id, now).durable)
            && exit.content.app == s.server.durable.app + [write]
            && Completing(left.server, run.units[k].id, now).durable.app == s.server.durable.app
            && !Landed(left.server, exit) && Explained(left, false, exit)
  {
    IdleCanComplete(run, k, s.(server := Opening(s.server).(txn := NoTxn)), now);
  }

  lemma {:induction false} NextId(units: seq<Unit>, i: nat)
    requires i < |units|
    ensures |Ids(units)| == |units| && Ids(units)[..i] + [units[i].id] == Ids(units)[..i + 1]
  {
  }

  /** The required objects were looked at, and an answer came back. */
  ghost predicate Checked(before: seq<Call>, after: seq<Call>) {
    exists i :: |before| <= i < |after| && after[i].Reading? && after[i].reply.ACK?
  }

  lemma {:induction false} StillChecked(before: seq<Call>, looked: seq<Call>, after: seq<Call>)
    requires looked <= after
    ensures Checked(before, looked) ==> Checked(before, after)
  {
    if i :| |before| <= i < |looked| && looked[i].Reading? && looked[i].reply.ACK? {
      assert after[i] == looked[i];
    }
  }

  /** One attempt at discarding, or two if an interrupt cut the first one short. */
  ghost predicate Discards(before: seq<Call>, after: seq<Call>) {
    && before <= after && |before| < |after| <= |before| + 2 && Last(after).Discarding?
    && (|after| == |before| + 1 ==> !Last(after).reply.INTERRUPTION?)
  }

  /** The session was closed, and discarded if an interrupt cut that short. */
  ghost predicate LetGo(before: seq<Call>, after: seq<Call>) {
    && before <= after && |before| < |after| && after[|before|].Closing?
    && (if after[|before|].reply.INTERRUPTION? then Discards(after[..|before| + 1], after) else |after| == |before| + 1)
  }

  /** The cleanup itself failed. */
  predicate Interfered(e: Error) {
    e.Rejected? || e.UnknownOutcome? || e.Interrupt?
  }

  function Ids(units: seq<Unit>): seq<string> {
    seq(|units|, i requires 0 <= i < |units| => units[i].id)
  }

  ghost predicate OwnActive(plan: Plan, i: nat)
    requires i < |plan.pending|
  {
    plan.active.Some? ==>
      && (plan.active.value.id == plan.pending[i].id <==> i == 0)
      && plan.active.value.attempt.Some?
      && (!plan.activeChanged ==> plan.active.value.fingerprint == plan.pending[0].fingerprint)
  }

  /** The plan's ACTIVE row belongs to its first pending unit and to no other. */
  lemma {:induction false} PlannedActive(plan: Plan, rows: seq<HistoryRow>, units: seq<Unit>, i: nat)
    requires WellFormedCapture(units) && Shaped(rows) && Agrees(rows, units) && Describes(plan, rows, units)
    requires i < |plan.pending|
    ensures OwnActive(plan, i)
  {
  }

  lemma {:induction false} NoneActiveNoProgress(run: Run, k: nat, t: Tables)
    requires AtUnit(run, k, t)
    ensures !ActiveLast(t.history) ==> t.progress == []
  {
    ProgressHasAnOwner(t.history, t.progress);
  }

  lemma {:induction false} ActiveIsRestartable(run: Run, k: nat, t: Tables)
    requires AtUnit(run, k, t) && k < |run.units|
    ensures ActiveLast(t.history) ==> run.units[k].mode.RESTARTABLE?
  {
  }

  lemma {:induction false} PublishedIsPlanned(t: Tables, units: seq<Unit>)
    ensures Sound(t) && Published(t.history, units) ==>
              && WellShaped(Snap(t)) && Agrees(t.history, units)
              && (ActiveLast(t.history) ==> Last(t.history).fingerprint == units[|t.history| - 1].fingerprint)
  {
    if Sound(t) && Published(t.history, units) {
      ShapedIsInKeyOrder(t.history);
      forall i | 0 <= i < |t.history|
        ensures if t.history[i].status.ACTIVE? then Resumable(t.history[i], units[i]) else Unchanged(t.history[i], units[i])
      {
        assert Unchanged(t.history[i], units[i]) && ValidRow(t.history[i]);
      }
    }
  }

  /** The first thing a run asks of the server is the lock; without it the session is
      at most rolled back and let go. */
  ghost predicate LockedFirst(before: seq<Call>, after: seq<Call>) {
    && before <= after
    && forall i | |before| <= i < |after| && !after[i].RollingBack? && !after[i].Closing? && !after[i].Discarding? :: after[|before|] == Locking
  }

  /** The lock was granted. */
  ghost predicate LockedSince(before: seq<Call>, after: seq<Call>) {
    |before| < |after| && after[|before|] == Locking
  }

  lemma {:induction false} LockStays(before: seq<Call>, locked: Session, now: Session)
    requires locked.calls == before + [Locking] && Extends(locked, now)
    ensures LockedFirst(before, now.calls) && LockedSince(before, now.calls) && now.calls != before
  {
  }

  lemma {:induction false} NoCallYet(before: seq<Call>)
    ensures LockedFirst(before, before)
  {
  }

  lemma {:induction false} LockTaken(before: seq<Call>, locked: Session)
    ensures locked.calls == before || locked.calls == before + [Locking] ==> LockedFirst(before, locked.calls)
    ensures locked.calls == before + [Locking] ==> LockedSince(before, locked.calls)
    ensures locked.calls == before + [Locking] ==> Locking in locked.calls
  {
    if locked.calls == before + [Locking] {
      assert locked.calls[|before|] == Locking;
    }
  }

  lemma {:induction false} StillLocked(a: Session, b: Session)
    requires Extends(a, b) && Locking in a.calls
    ensures Locking in b.calls
  {
    var i :| 0 <= i < |a.calls| && a.calls[i] == Locking;
    assert b.calls[i] == Locking;
  }

  lemma {:induction false} LockOutlives(before: seq<Call>, a: Session, b: Session)
    requires LockedFirst(before, a.calls) && Outlives(a, b)
    ensures LockedFirst(before, b.calls)
    ensures LockedSince(before, a.calls) ==> LockedSince(before, b.calls)
  {
  }

  /** The source of the ACTIVE migration is not the one that was admitted. */
  ghost predicate Amended(rows: seq<HistoryRow>, units: seq<Unit>) {
    exists row | row in rows :: row.status == ACTIVE && 1 <= row.seqno <= |units| && row.fingerprint != units[row.seqno - 1].fingerprint
  }

  /** The ACTIVE row of a plan is the only one there is. */
  lemma {:induction false} OnlyActive(rows: seq<HistoryRow>, plan: Plan, units: seq<Unit>)
    requires Shaped(rows) && |rows| <= |units| && Describes(plan, rows, units)
    ensures forall row | row in rows && row.status == ACTIVE :: plan.active == Some(row) && row.seqno == |rows|
    ensures plan.active.Some? ==> plan.active.value in rows && plan.active.value.status == ACTIVE && plan.active.value.seqno == |rows|
  {
  }

  lemma {:induction false} EmptyIsSound(t: Tables, units: seq<Unit>)
    requires t.marker == Some(LAYOUT_VERSION)
    ensures t.history == [] && t.progress == [] ==> Sound(t) && Published(t.history, units)
  {
  }

  lemma {:induction false} AtUnitCounts(run: Run, k: nat, t: Tables)
    requires AtUnit(run, k, t)
    ensures AtUnit(run, |run.units|, t) ==> k == |run.units|
  {
  }

  lemma {:induction false} EndIsDone(run: Run, t: Tables)
    requires AtUnit(run, |run.units|, t)
    ensures !ActiveLast(t.history) && t.progress == []
  {
    ProgressHasAnOwner(t.history, t.progress);
  }

  lemma {:induction false} StepByAdmission(run: Run, s: Tables, t: Tables)
    requires Admits(run, s, t) || Readmits(run, s, t)
    ensures Step(run, s, t)
  {
  }

  lemma {:induction false} StepByCompletion(run: Run, s: Tables, t: Tables)
    requires Completes(run, s, t)
    ensures Step(run, s, t)
  {
  }

  lemma {:induction false} FirstAdmission(run: Run, s: Tables, t: Tables)
    requires Sound(s) && Agrees(s.history, run.units) && !ActiveLast(s.history)
    requires |s.history| < |run.units| && run.units[|s.history|].mode.RESTARTABLE?
    requires |t.history| > 0 && Last(t.history).startedAt.Some?
    requires Last(t.history) == ActiveRow(run.units[|s.history|], Last(t.history).startedAt.value)
    requires t == s.(history := s.history + [Last(t.history)])
    ensures Admits(run, s, t)
  {
  }

  lemma {:induction false} StepBySuccess(run: Run, s: Tables, t: Tables)
    requires Succeeds(run, s, t)
    ensures Step(run, s, t)
  {
  }

  /** Author work plus the SUCCESS row is atomic completion. */
  lemma {:induction false} SuccessRowSucceeds(run: Run, s: Tables, pending: Tables, t: Tables)
    requires WellFormedCapture(run.units) && Sound(s) && Agrees(s.history, run.units) && !ActiveLast(s.history)
    requires |s.history| < |run.units| && run.units[|s.history|].mode.ATOMIC?
    requires Authors(None, s, pending)
    requires |t.history| > 0 && Last(t.history).startedAt.Some?
    requires Last(t.history) == SuccessRow(run.units[|s.history|], Last(t.history).startedAt.value)
    requires t == pending.(history := pending.history + [Last(t.history)])
    ensures Succeeds(run, s, t)
  {
  }
}
