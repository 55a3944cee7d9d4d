/** The `migrate` command around an engine run: interrupts may arrive at any
    point of the run's teardown, of the staging cleanup and of the rendering. */
module Cli {
  import opened Model
  import opened Durable
  import opened Driver
  import opened Adapter
  import opened Latch
  import opened Engine

  class MigrateCommand {
    const engine: MigrateEngine
    /** The engine was entered; before that, no migration work began. */
    var entered: bool
    /** The engine returned its report. */
    var returned: bool
    /** Decided before the first write, and final. */
    var exitCode: Option<Exit>
    /** How often a result was written, and how many interrupts arrived. */
    ghost var writes: nat
    ghost var interrupts: nat

    ghost predicate Valid()
      reads this, engine, engine.adapter, engine.adapter.latch
    {
      && engine.adapter.latch.Valid()
      && (returned ==> entered && engine.reported)
      && (exitCode.Some? ==> exitCode.value == Verdict())
      && writes <= (if exitCode.Some? then 1 else 0)
    }

    constructor (engine: MigrateEngine)
      requires engine.adapter.latch.Valid()
      ensures Valid() && this.engine == engine && !entered && !returned && exitCode.None? && writes == 0
    {
      this.engine := engine;
      entered, returned, exitCode := false, false, None;
      writes, interrupts := 0, 0;
    }

    /** Of the driver calls made since, none but `discard` follows the latching of an
        unknown outcome. */
    ghost predicate Silenced(before: seq<Call>)
      reads this, engine, engine.adapter, engine.adapter.db, engine.adapter.latch
    {
      var calls := engine.adapter.db.calls;
      before <= calls && Quiet(calls) && (engine.adapter.Silent() <==> Latching in calls)
    }

    /** The code tells of what was latched, and no call is in doubt without its being
        told, unless an interrupt came after the call or left the latch half-set. */
    ghost predicate Tells(code: Exit)
      reads this, engine, engine.adapter, engine.adapter.db, engine.adapter.latch
    {
      var latch, calls, interrupts := engine.adapter.latch, engine.adapter.db.calls, engine.adapter.db.interrupts;
      && (Latching in calls ==> code == UNKNOWN_OUTCOME)
      && (latch.error.Some? && latch.state == VIOLATION ==> code == CONTRACT_VIOLATION)
      && (latch.error.Some? && latch.state == BATCH_FAILED ==> code == MIGRATION_FAILED)
      && (forall i | 0 <= i < |calls| && InDoubt(calls[i]) && Undisturbed(interrupts, i) && !latch.Half() :: code == UNKNOWN_OUTCOME)
    }

    /** The outcome, if the engine has recorded one. */
    function Recorded(): Option<Exit>
      reads this, engine
    {
      if returned || (entered && engine.reported) then Some(engine.exitCode) else None
    }

    /** What the command must answer: the recorded outcome, else the latched
        error's code, else an ordinary failure. */
    function Verdict(): Exit
      requires engine.adapter.latch.Valid()
      reads this, engine, engine.adapter, engine.adapter.latch
    {
      var latched := engine.adapter.latch.error;
      if Recorded().Some? then Recorded().value
      else if entered && latched.Some? then latched.value.ExitCode()
      else MIGRATION_FAILED
    }

    /** A point where an interrupt may be delivered. */
    method Tick() returns (o: Outcome)
      modifies this`interrupts
      ensures if o.Done? then interrupts == old(interrupts) else o == Raised(Interrupt) && interrupts == old(interrupts) + 1
    {
      var hit: bool := *;
      if hit {
        interrupts := interrupts + 1;
      }
      o := if hit then Raised(Interrupt) else Done;
    }

    /** Write a result whose exit code is already decided; an interrupt stops
        the writing and goes no further. */
    method Write()
      requires Valid() && exitCode.Some? && writes == 0
      modifies this`writes
      ensures Valid()
    {
      var started: bool := *;
      if started {
        writes := writes + 1;
      }
    }

    /** Decide the code, then write: in this order, so that no interrupt can
        have the result written twice. */
    method Render(code: Exit) returns (r: Result<Exit>)
      requires Valid() && exitCode.None? && code == Verdict()
      modifies this`exitCode, this`writes, this`interrupts
      ensures Valid()
      ensures if r.Returned? then r.value == Verdict() && interrupts == old(interrupts)
              else r == Threw(Interrupt) && interrupts == old(interrupts) + 1
    {
      var o := Tick();
      if o.Raised? {
        return Threw(o.error);
      }
      exitCode := Some(code);
      o := Tick();
      if o.Raised? {
        return Threw(o.error);
      }
      Write();
      return Returned(code);
    }

    /** Cleaning up after an engine run absorbs two interrupts, one by a second
        attempt and one by giving up: only a third escapes.  Without an engine run
        the first one does. */
    method CleanupStaging() returns (o: Outcome)
      requires Valid()
      modifies this`interrupts
      ensures Valid() && (o.Done? || o == Raised(Interrupt)) && interrupts >= old(interrupts)
      ensures o.Raised? ==> interrupts == old(interrupts) + if entered then 3 else 1
    {
      if !entered {
        o := Tick();
        return;
      }
      for attempt := 0 to 2
        invariant Valid() && interrupts == old(interrupts) + attempt
      {
        o := Tick();
        if o.Done? {
          return;
        }
      }
      o := Tick();
    }

    lemma {:induction false} NothingReported()
      requires engine.Fresh()
      ensures engine.Honest()
    {
    }

    /** Enter the engine, clean up whatever it did, and render its report. */
    method DoMigrate() returns (r: Result<Exit>)
      requires Valid() && !entered && !returned && exitCode.None? && writes == 0 && engine.Fresh()
      modifies this, engine, engine.adapter, engine.adapter.db, engine.adapter.latch
      ensures Valid() && engine.Lawful() && engine.Honest() && engine.Ledger() && Silenced(old(engine.adapter.db.calls))
      ensures if r.Returned? then entered && r.value == Verdict() else r == Threw(Interrupt)
      ensures interrupts >= old(interrupts)
      ensures entered ==> engine.RunEffect(old(engine.adapter.At()))
      ensures !entered ==> engine.adapter.latch.error.None? && !engine.adapter.latch.Half()
    {
      hide StepsFrom, WellFormedCapture, Entered, Charted, Quiet, MigrateEngine.RunEffect, MigrateEngine.Ledger, MigrateEngine.Honest, InDoubt;
      engine.NothingEntered();
      NothingReported();
      var o := Tick();
      if o.Done? {
        entered := true;
        o := engine.Go();
        if o.Done? {
          returned := true;
        }
      }
      var cleaned := CleanupStaging();
      if o.Raised? || cleaned.Raised? {
        return Threw(Interrupt);
      }
      r := Render(engine.exitCode);
    }

    /** One attempt at rendering an interrupt that reached `main`. */
    method RenderInterruptOnce() returns (r: Result<Exit>)
      requires Valid() && exitCode.None?
      modifies this`exitCode, this`writes, this`interrupts
      ensures Valid()
      ensures if r.Returned? then r.value == Verdict() && interrupts == old(interrupts)
              else r == Threw(Interrupt) && interrupts == old(interrupts) + 1
    {
      if Recorded().Some? {
        r := Render(Recorded().value);
        return;
      }
      var latched := engine.adapter.latch.error;
      r := Render(if entered && latched.Some? then latched.value.ExitCode() else MIGRATION_FAILED);
    }

    /** Answer an interrupt that got through, with at most one result written.
        Only a third interrupt meanwhile can escape. */
    method RenderInterrupt() returns (r: Result<Exit>)
      requires Valid()
      modifies this`exitCode, this`writes, this`interrupts
      ensures Valid()
      ensures r.Returned? ==> r.value == Verdict()
      ensures r.Threw? ==> interrupts >= old(interrupts) + 3
    {
      for attempt := 0 to 2
        invariant Valid() && interrupts == old(interrupts) + attempt
      {
        if exitCode.Some? {
          return Returned(exitCode.value);
        }
        r := RenderInterruptOnce();
        if r.Returned? {
          return;
        }
      }
      var o := Tick();
      if o.Raised? {
        return Threw(o.error);
      }
      return Returned(if exitCode.Some? then exitCode.value else Verdict());
    }

    /** The whole command.  Whatever interrupts arrive, it answers with the outcome
        the engine recorded, else the latched one, and writes at most one result. */
    method Command() returns (r: Result<Exit>)
      requires Valid() && !entered && !returned && exitCode.None? && writes == 0 && engine.Fresh()
      modifies this, engine, engine.adapter, engine.adapter.db, engine.adapter.latch
      ensures writes <= 1 && (r.Threw? ==> interrupts >= old(interrupts) + 3)
      ensures engine.Lawful() && engine.Honest() && engine.Ledger() && Silenced(old(engine.adapter.db.calls))
      ensures r.Returned? && entered && engine.reported ==> r.value == engine.exitCode
      ensures r.Returned? && entered && engine.adapter.latch.error.Some? ==> r.value == engine.adapter.latch.error.value.ExitCode()
      ensures r.Returned? && !(entered && engine.reported) && engine.adapter.latch.error.None? ==> r.value.MIGRATION_FAILED?
      ensures r.Returned? ==> Tells(r.value)
      ensures entered ==> engine.RunEffect(old(engine.adapter.At()))
      ensures r.Returned? && r.value.OK? ==> engine.adapter.latch.error.None? && engine.AllDone(engine.adapter.db.server.durable)
    {
      hide StepsFrom, WellFormedCapture, Entered, Charted, Quiet;
      r := DoMigrate();
      if r.Threw? {
        r := RenderInterrupt();
      }
    }
  }
}
