/** Many runs over one namespace, by any number of runners.  Each holds the
    namespace lock for its whole run, any of them may die at any moment, and a
    commit still in flight when its runner is gone settles, one way or the other,
    before the lock is free again. */
module Runners {
  import opened Model
  import opened StateValidate
  import opened Durable
  import opened Driver
  import opened Latch
  import opened Metadata
  import opened Adapter
  import opened Programs
  import opened Engine

  // ------------------------------------------------ the lock as a protocol

  /** The lock holder: what it runs, and the durable state as it last knew it. */
  datatype Holder = Holder(run: Run, known: Tables, alive: bool)

  datatype World = World(durable: Tables, holder: Option<Holder>, inflight: Option<Tables>)

  datatype Act = Acquire(run: Run) | Make(next: Tables) | Lose(next: Tables) | Die | Settle(lands: bool) | Release

  /** A commit computed from what its runner knew.  Only if that is still the
      durable state is the result the one the runner meant; otherwise it is
      anything at all. */
  ghost predicate Lands(w: World, known: Tables, next: Tables, durable: Tables) {
    w.durable == known ==> durable == next
  }

  ghost predicate Moves(w: World, act: Act, w': World) {
    match act
    case Acquire(run) =>
      w.holder.None? && WellFormedCapture(run.units) && w' == w.(holder := Some(Holder(run, w.durable, true)))
    case Make(next) =>
      && w.holder.Some? && w.holder.value.alive && Step(w.holder.value.run, w.holder.value.known, next)
      && Lands(w, w.holder.value.known, next, w'.durable)
      && w'.holder == Some(w.holder.value.(known := next)) && w'.inflight == w.inflight
    case Lose(next) =>
      && w.holder.Some? && w.holder.value.alive && Step(w.holder.value.run, w.holder.value.known, next)
      && w' == w.(holder := Some(w.holder.value.(alive := false)), inflight := Some(next))
    case Die =>
      w.holder.Some? && w' == w.(holder := Some(w.holder.value.(alive := false)))
    case Settle(lands) =>
      && w.holder.Some? && w.inflight.Some?
      && (if lands then Lands(w, w.holder.value.known, w.inflight.value, w'.durable) else w'.durable == w.durable)
      && w'.holder == Some(w.holder.value.(known := w'.durable)) && w'.inflight.None?
    case Release =>
      w.holder.Some? && !w.holder.value.alive && w.inflight.None? && w' == w.(holder := None)
  }

  /** Nobody writes but the holder, so what it knows is what is durable. */
  ghost predicate Exclusive(w: World) {
    && (w.holder.Some? ==> w.holder.value.known == w.durable && WellFormedCapture(w.holder.value.run.units))
    && (w.inflight.Some? ==> w.holder.Some? && !w.holder.value.alive && Step(w.holder.value.run, w.durable, w.inflight.value))
  }

  /** An interleaving of runners. */
  ghost predicate Interleaving(worlds: seq<World>, acts: seq<Act>) {
    && |worlds| == |acts| + 1
    && worlds[0].holder.None? && worlds[0].inflight.None?
    && forall i | 0 <= i < |acts| :: Moves(worlds[i], acts[i], worlds[i + 1])
  }

  lemma {:induction false} MoveIsExclusive(w: World, act: Act, w': World)
    requires Exclusive(w) && Moves(w, act, w')
    ensures Exclusive(w')
    ensures w'.durable != w.durable ==> w.holder.Some? && Step(w.holder.value.run, w.durable, w'.durable)
  {
    hide Step, WellFormedCapture;
  }

  lemma {:induction false} JourneyOn(states: seq<Tables>, runs: seq<Run>, run: Run, t: Tables)
    requires Journey(states, runs) && WellFormedCapture(run.units) && Step(run, Last(states), t)
    ensures Journey(states + [t], runs + [run])
  {
    hide Step, WellFormedCapture;
  }

  /** However runners interleave, the durable states follow one journey, so all
      that holds of journeys holds of them. */
  lemma {:induction false} InterleavingsAreJourneys(worlds: seq<World>, acts: seq<Act>) returns (states: seq<Tables>, runs: seq<Run>)
    requires Interleaving(worlds, acts)
    ensures Journey(states, runs) && states[0] == worlds[0].durable && Last(states) == Last(worlds).durable
    ensures Exclusive(Last(worlds))
    ensures forall i | 0 <= i < |worlds| :: worlds[i].durable in states
    ensures forall r | r in runs :: exists i :: 0 <= i < |acts| && acts[i] == Acquire(r)
    ensures Last(worlds).holder.Some? ==> exists i :: 0 <= i < |acts| && acts[i] == Acquire(Last(worlds).holder.value.run)
    decreases |acts|
  {
    hide Step, WellFormedCapture;
    if acts == [] {
      states, runs := [worlds[0].durable], [];
    } else {
      var n := |acts| - 1;
      states, runs := InterleavingsAreJourneys(worlds[..n + 1], acts[..n]);
      var w, w' := worlds[n], worlds[n + 1];
      assert w == Last(worlds[..n + 1]) && Moves(w, acts[n], w');
      MoveIsExclusive(w, acts[n], w');
      assert forall i | 0 <= i < n :: acts[..n][i] == acts[i];
      if w'.durable != w.durable {
        var earlier := states;
        JourneyOn(states, runs, w.holder.value.run, w'.durable);
        states, runs := states + [w'.durable], runs + [w.holder.value.run];
        assert Last(states) == w'.durable;
        assert forall t | t in earlier :: t in states;
      }
      forall i | 0 <= i < |worlds| ensures worlds[i].durable in states {
        if i <= n {
          assert worlds[i] == worlds[..n + 1][i];
        } else {
          assert Last(states) == w'.durable;
        }
      }
    }
  }

  /** Whatever any of them left behind, the next runner's referee accepts it. */
  lemma {:induction false} EveryInterleavingIsAccepted(worlds: seq<World>, acts: seq<Act>)
    requires Interleaving(worlds, acts) && EmptyNamespace(worlds[0].durable)
    ensures forall i | 0 <= i < |worlds| :: Inv(worlds[i].durable) && WellShaped(Snap(worlds[i].durable))
  {
    hide Journey, Inv, WellShaped;
    var states, runs := InterleavingsAreJourneys(worlds, acts);
    forall i | 0 <= i < |worlds| ensures Inv(worlds[i].durable) && WellShaped(Snap(worlds[i].durable)) {
      var k :| 0 <= k < |states| && states[k] == worlds[i].durable;
      EveryReachableStateIsAccepted(states, runs, k);
    }
  }

  // ---------------------------------------------------- runs of the engine

  /** One `migrate` command with what its units do. */
  datatype Command = Command(run: Run, sources: seq<Source>)

  ghost predicate Runnable(c: Command) {
    WellFormedCapture(c.run.units) && |c.sources| == |c.run.units|
  }

  /** A namespace any journey from an empty one can lead to. */
  lemma {:induction false} InvIsFresh(t: Tables)
    requires Inv(t)
    ensures Physical(t) && InKeyOrder(t.history)
  {
  }

  /** An engine on a session of its own over the namespace. */
  method Start(c: Command, durable: Tables, faulty: bool, severing: bool, knowsRollback: bool, damaged: bool, bindingsMatch: bool, ghost course: Course)
    returns (engine: MigrateEngine)
    requires Runnable(c) && Inv(durable) && (severing ==> faulty && !knowsRollback)
    ensures engine.Fresh() && engine.run == c.run && engine.sources == c.sources && engine.bindingsMatch == bindingsMatch
    ensures engine.course == course && engine.adapter.db.severing == severing
    ensures fresh(engine) && fresh(engine.adapter) && fresh(engine.adapter.db) && fresh(engine.adapter.latch)
    ensures engine.adapter.db.server.durable == durable && engine.adapter.db.trail == [durable]
    ensures engine.adapter.db.faulty == faulty && engine.adapter.db.definitionProblems == damaged
  {
    InvIsFresh(durable);
    var db := new Database(durable, faulty, severing, knowsRollback, damaged);
    var latch := new RunLatch();
    var adapter := new SessionAdapter(db, latch);
    engine := new MigrateEngine(adapter, c.run, c.sources, bindingsMatch, course);
  }

  /** The states of one run's trail continue a journey. */
  lemma {:induction false} TrailContinues(states: seq<Tables>, runs: seq<Run>, run: Run, trail: seq<Tables>, m: nat)
    returns (states': seq<Tables>, runs': seq<Run>)
    requires Journey(states, runs) && WellFormedCapture(run.units)
    requires m < |trail| && trail[0] == Last(states) && StepsFrom(run, trail, 0)
    ensures Journey(states', runs') && states <= states' && runs <= runs' && Last(states') == trail[m]
    ensures forall i | |runs| <= i < |runs'| :: runs'[i] == run
  {
    hide Step, WellFormedCapture;
    if m == 0 {
      states', runs' := states, runs;
    } else {
      states', runs' := TrailContinues(states, runs, run, trail, m - 1);
      assert Step(run, trail[m - 1], trail[m]);
      JourneyOn(states', runs', run, trail[m]);
      states', runs' := states' + [trail[m]], runs' + [run];
    }
  }

  /** Run one command after another over an empty namespace, with anything going
      wrong in any of them, each process dying at any moment of its run.  `severing`
      says whether server code may end transactions.  If it may not, and the sources
      steer a course, the data never leaves it. */
  method Succession(commands: seq<Command>, start: Tables, severing: bool, ghost course: Course)
    returns (durable: Tables, ghost states: seq<Tables>, ghost runs: seq<Run>)
    requires EmptyNamespace(start) && forall i | 0 <= i < |commands| :: Runnable(commands[i])
    ensures Journey(states, runs) && states[0] == start && Last(states) == durable
    ensures Inv(durable) && WellShaped(Snap(durable))
    ensures DrawnFrom(runs, commands)
    ensures Publishing(commands) ==> AppendOnly(runs)
    ensures !severing && Publishing(commands) && Chartered(commands, course) && InCourse(course, start) ==> InCourse(course, durable)
  {
    hide Step, WellFormedCapture, Inv, Journey, InCourse, Steers;
    durable, states, runs := start, [start], [];
    NoJourneyYet(start);
    ghost var charted := !severing && Publishing(commands) && Chartered(commands, course) && InCourse(course, start);
    for n := 0 to |commands|
      invariant Journey(states, runs) && states != [] && states[0] == start && Last(states) == durable
      invariant Inv(durable) && WellShaped(Snap(durable))
      invariant DrawnFrom(runs, commands[..n])
      invariant Publishing(commands) ==> AppendOnly(runs)
      invariant charted ==> InCourse(course, durable) && Succeeded(durable.history) <= if n == 0 then 0 else |commands[n - 1].run.units|
    {
      ghost var part := if charted then course[..|commands[n].run.units| + 1] else course;
      if charted {
        assert n > 0 ==> commands[n - 1].run.units <= commands[n].run.units;
        PartOfCourse(course, |commands[n].run.units|, durable);
      }
      var died := RunAndDie(commands[n], durable, severing, part);
      ghost var trail :| Trailed(commands[n].run, durable, died, trail);
      ghost var m :| 0 <= m < |trail| && trail[m] == died;
      ghost var states', runs' := TrailContinues(states, runs, commands[n].run, trail, m);
      StillAppendOnly(commands, n, runs, runs');
      if charted {
        PartOfCourse(course, |commands[n].run.units|, died);
      }
      durable, states, runs := died, states', runs';
      EveryReachableStateIsAccepted(states, runs, |states| - 1);
    }
    assert commands[..|commands|] == commands;
  }

  /** Each command's sources steer the course as far as its units go. */
  ghost predicate Chartered(commands: seq<Command>, course: Course) {
    forall i | 0 <= i < |commands| ::
      |commands[i].run.units| < |course| && Steers(commands[i].run.units, commands[i].sources, course[..|commands[i].run.units| + 1])
  }

  lemma {:induction false} PartOfCourse(course: Course, n: nat, t: Tables)
    requires n < |course|
    ensures InCourse(course[..n + 1], t) <==> InCourse(course, t) && Succeeded(t.history) <= n
  {
  }

  /** Sources that steer a course steer the beginning of it. */
  lemma {:induction false} SteersPart(units: seq<Unit>, sources: seq<Source>, course: Course, n: nat)
    requires Steers(units, sources, course) && n <= |units|
    ensures Steers(units[..n], sources[..n], course[..n + 1])
  {
    hide Steered;
  }

  /** From data in the course, what is left runs through to its end. */
  lemma {:induction false} SteersPlaysOut(units: seq<Unit>, sources: seq<Source>, course: Course, k: nat, store: Store)
    requires Steers(units, sources, course) && k <= |units| && store in course[k]
    ensures PlayedOut(units, sources, k, store).Some? && PlayedOut(units, sources, k, store).value in course[|units|]
    decreases |units| - k
  {
    if k < |units| {
      assert Steered(sources[k], units[k], store, course[k], course[k + 1]);
      SteersPlaysOut(units, sources, course, k + 1, Store(PlaySource(sources[k], units[k], store).value.app, []));
    }
  }

  /** Every run is the run of one of the commands. */
  ghost predicate DrawnFrom(runs: seq<Run>, commands: seq<Command>) {
    forall i | 0 <= i < |runs| :: exists k :: 0 <= k < |commands| && runs[i] == commands[k].run
  }

  /** Durable states of one run, one of which is where it died. */
  ghost predicate Trailed(run: Run, start: Tables, died: Tables, trail: seq<Tables>) {
    trail != [] && trail[0] == start && StepsFrom(run, trail, 0) && died in trail
  }

  /** One run whose process dies somewhere along it. */
  method RunAndDie(c: Command, durable: Tables, severing: bool, ghost course: Course) returns (died: Tables)
    requires Runnable(c) && Inv(durable)
    ensures exists trail :: Trailed(c.run, durable, died, trail)
    ensures !severing && Steers(c.run.units, c.sources, course) && InCourse(course, durable) ==> InCourse(course, died)
  {
    hide Step, WellFormedCapture, Inv, InCourse, Steers;
    var faulty, wild, knowsRollback, damaged, bindingsMatch := *, *, *, *, *;
    var engine := Start(c, durable, faulty, faulty && severing && wild && !knowsRollback, knowsRollback, damaged, bindingsMatch, course);
    var _ := engine.Go();
    var trail := engine.adapter.db.trail;
    assert trail[0] == durable;
    var m :| 0 <= m < |trail|;
    died := trail[m];
    assert Trailed(c.run, durable, died, trail);
  }

  /** Each capture extends the ones before it. */
  ghost predicate Publishing(commands: seq<Command>) {
    forall i, j | 0 <= i <= j < |commands| :: commands[i].run.units <= commands[j].run.units
  }

  lemma {:induction false} NoJourneyYet(start: Tables)
    requires EmptyNamespace(start)
    ensures Journey([start], []) && Inv(start) && WellShaped(Snap(start)) && AppendOnly([])
  {
    EveryReachableStateIsAccepted([start], [], 0);
  }

  lemma {:induction false} StillAppendOnly(commands: seq<Command>, n: nat, runs: seq<Run>, runs': seq<Run>)
    requires n < |commands| && runs <= runs'
    requires DrawnFrom(runs, commands[..n])
    requires forall i | |runs| <= i < |runs'| :: runs'[i] == commands[n].run
    ensures DrawnFrom(runs', commands[..n + 1])
    ensures Publishing(commands) && AppendOnly(runs) ==> AppendOnly(runs')
  {
    var some := commands[..n + 1];
    forall i | 0 <= i < |runs'| ensures exists k :: 0 <= k < |some| && runs'[i] == some[k].run {
      if i < |runs| {
        var k :| 0 <= k < n && runs[i] == commands[..n][k].run;
        assert runs'[i] == some[k].run;
      } else {
        assert runs'[i] == some[n].run;
      }
    }
    if Publishing(commands) && AppendOnly(runs) {
      forall i, j | 0 <= i <= j < |runs'| ensures runs'[i].units <= runs'[j].units {
        if j < |runs| {
          assert runs'[i] == runs[i] && runs'[j] == runs[j];
        } else {
          var k :| 0 <= k < |some| && runs'[i] == some[k].run;
          assert commands[k].run.units <= commands[n].run.units;
        }
      }
    }
  }

  /** What a later capture needs to find for a plain run of it. */
  lemma {:induction false} AdmissibleAfterwards(commands: seq<Command>, states: seq<Tables>, runs: seq<Run>, units: seq<Unit>)
    requires Journey(states, runs) && EmptyNamespace(states[0]) && AppendOnly(runs)
    requires DrawnFrom(runs, commands)
    requires forall n | 0 <= n < |commands| :: commands[n].run.units <= units
    ensures var t := Last(states);
            Virgin(t) || (ALL_OBJECTS <= t.objects && Sound(t) && Published(t.history, units))
  {
    hide Step, WellFormedCapture;
    var i := |states| - 1;
    EveryReachableStateIsAccepted(states, runs, i);
    if i > 0 {
      var n :| 0 <= n < |commands| && runs[i - 1] == commands[n].run;
      assert runs[i - 1].units <= units;
    }
    NeverWedged(states, runs, i, units);
  }

  /** The commands run what the last one runs, as far as their units go, and the
      sources steer a course that the data starts in. */
  ghost predicate SteeredTogether(commands: seq<Command>, last: Command, course: Course, start: Tables) {
    && (forall i | 0 <= i < |commands| :: commands[i].sources <= last.sources)
    && Steers(last.run.units, last.sources, course) && InCourse(course, start)
  }

  lemma {:induction false} TogetherIsChartered(commands: seq<Command>, last: Command, course: Course, start: Tables)
    requires forall i | 0 <= i < |commands| :: Runnable(commands[i]) && commands[i].run.units <= last.run.units
    requires SteeredTogether(commands, last, course, start)
    ensures Chartered(commands, course)
  {
    hide Steers, WellFormedCapture;
    forall i | 0 <= i < |commands|
      ensures |commands[i].run.units| < |course|
      ensures Steers(commands[i].run.units, commands[i].sources, course[..|commands[i].run.units| + 1])
    {
      var n := |commands[i].run.units|;
      assert |course| == |last.run.units| + 1 by {
        CourseLength(last.run.units, last.sources, course);
      }
      SteersPart(last.run.units, last.sources, course, n);
      assert last.run.units[..n] == commands[i].run.units;
      assert last.sources[..n] == commands[i].sources;
    }
  }

  lemma {:induction false} CourseLength(units: seq<Unit>, sources: seq<Source>, course: Course)
    requires Steers(units, sources, course)
    ensures |course| == |units| + 1 && |sources| == |units|
  {
  }

  /** Whatever earlier runs of a growing manifest left behind, one fault-free plain
      run executes units in order from the first that is not SUCCESS; and if these
      run through from the data that was left, it executes all of them, leaves the
      data they play to, and a further run finds nothing to do.  They do run through
      if the sources steer a course and no server code ended a transaction, and then
      the data ends in it, whatever failed before.  `knowsRollback` is the kind of
      server. */
  method Converge(commands: seq<Command>, last: Command, start: Tables, severing: bool, knowsRollback: bool, ghost course: Course)
    returns (left: Tables, executed: seq<string>, again: seq<string>, final: Tables)
    requires EmptyNamespace(start) && (forall i | 0 <= i < |commands| :: Runnable(commands[i])) && Runnable(last)
    requires Publishing(commands) && forall i | 0 <= i < |commands| :: commands[i].run.units <= last.run.units
    requires last.run.recover.None?
    ensures Succeeded(left.history) <= |last.run.units| && executed <= Ids(last.run.units[Succeeded(left.history)..])
    ensures var played := PlayedOut(last.run.units, last.sources, Succeeded(left.history), StoreOf(left));
            && (played.Some? ==> Converged(last.run, left, executed, again, final) && StoreOf(final) == played.value)
            && (!severing && SteeredTogether(commands, last, course, start) ==>
                  played.Some? && StoreOf(final) in course[|last.run.units|])
  {
    hide Step, WellFormedCapture, Inv, Journey, AtUnit, StepsFrom, PlayedOut, Steers;
    ghost var states, runs;
    if !severing && SteeredTogether(commands, last, course, start) {
      TogetherIsChartered(commands, last, course, start);
      CourseLength(last.run.units, last.sources, course);
    }
    left, states, runs := Succession(commands, start, severing, course);
    AdmissibleAfterwards(commands, states, runs, last.run.units);
    PublishedCounts(left, last.run.units);
    if !severing && SteeredTogether(commands, last, course, start) {
      SteersPlaysOut(last.run.units, last.sources, course, Succeeded(left.history), StoreOf(left));
    }
    var engine := Start(last, left, false, false, knowsRollback, false, true, course);
    var _ := engine.Go();
    executed := engine.executed;
    final := engine.adapter.db.server.durable;
    DoneKeepsInv(engine.adapter.db.trail, last.run);
    var once := Start(last, final, false, false, knowsRollback, false, true, course);
    var _ := once.Go();
    again := once.executed;
    if PlayedOut(last.run.units, last.sources, Succeeded(left.history), StoreOf(left)).Some? {
      AllUnitsSucceeded(last.run, final);
    }
  }

  /** Every unit is SUCCESS, the run executed exactly those that were not, and a
      further one executed nothing. */
  ghost predicate Converged(run: Run, left: Tables, executed: seq<string>, again: seq<string>, final: Tables) {
    && AtUnit(run, |run.units|, final) && !ActiveLast(final.history) && final.progress == []
    && |final.history| == |run.units| && (forall i | 0 <= i < |final.history| :: final.history[i].status.SUCCESS?)
    && Succeeded(left.history) <= |run.units| && executed == Ids(run.units[Succeeded(left.history)..]) && again == []
  }

  lemma {:induction false} PublishedCounts(t: Tables, units: seq<Unit>)
    requires t.history == [] || Published(t.history, units)
    ensures Succeeded(t.history) <= |units|
  {
  }

  lemma {:induction false} AllUnitsSucceeded(run: Run, t: Tables)
    requires AtUnit(run, |run.units|, t) && !ActiveLast(t.history)
    ensures |t.history| == |run.units| && forall i | 0 <= i < |t.history| :: t.history[i].status.SUCCESS?
  {
  }

  lemma {:induction false} DoneKeepsInv(trail: seq<Tables>, run: Run)
    requires trail != [] && Inv(trail[0]) && WellFormedCapture(run.units) && StepsFrom(run, trail, 0)
    ensures Inv(Last(trail))
    decreases |trail|
  {
    hide Step, WellFormedCapture, Inv;
    if |trail| > 1 {
      var shorter := Front(trail);
      DoneKeepsInv(shorter, run);
      assert Step(run, trail[|trail| - 2], trail[|trail| - 1]);
      StepKeepsInv(run, trail[|trail| - 2], trail[|trail| - 1]);
    }
  }
}
