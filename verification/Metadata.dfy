/** The initialization state of a namespace. */
module Metadata {
  import opened Model
  import opened StateValidate
  import opened Durable

  datatype MetadataState = ABSENT | INCOMPLETE_COMPATIBLE | COMPLETE | DAMAGED

  /** Decide the state from what an inspection found.  `problems` says whether
      any existing definition is incompatible; a missing table
      has no count. */
  function Classify(present: set<MetaObject>, problems: bool, marker: Option<int>,
                    historyCount: Option<nat>, progressCount: Option<nat>): MetadataState
  {
    var missing := ALL_OBJECTS - present;
    if marker.Some? then
      if problems || missing != {} then DAMAGED else COMPLETE
    else if present == {} then ABSENT
    else if problems || (historyCount.Some? && historyCount.value > 0) || (progressCount.Some? && progressCount.value > 0) then
      DAMAGED
    else INCOMPLETE_COMPATIBLE
  }

  /** Rows exist only in tables that exist. */
  ghost predicate Physical(t: Tables) {
    && (HISTORY_TABLE !in t.objects ==> t.history == [])
    && (PROGRESS_TABLE !in t.objects ==> t.progress == [])
    && (META_TABLE !in t.objects ==> t.marker.None?)
  }

  /** The inspection of a namespace. */
  function Inspect(t: Tables, problems: bool): MetadataState {
    Classify(t.objects, problems, t.marker,
             if HISTORY_TABLE in t.objects then Some(|t.history|) else None,
             if PROGRESS_TABLE in t.objects then Some(|t.progress|) else None)
  }

  /** Damage: a marker over an incomplete or incompatible layout, or no marker over
      objects that are incompatible or hold rows already. */
  ghost predicate Damaged(t: Tables, problems: bool) {
    if t.marker.Some? then problems || exists item: MetaObject :: item !in t.objects
    else t.objects != {} && (problems || t.history != [] || t.progress != [])
  }

  /** What each verdict means: exactly these. */
  lemma {:induction false} InspectionMeans(t: Tables, problems: bool)
    requires Physical(t)
    ensures Inspect(t, problems).DAMAGED? <==> Damaged(t, problems)
    ensures Inspect(t, problems).ABSENT? <==> t.marker.None? && t.objects == {}
    ensures Inspect(t, problems).INCOMPLETE_COMPATIBLE? <==>
              t.marker.None? && t.objects != {} && !problems && t.history == [] && t.progress == []
    ensures Inspect(t, problems) in {ABSENT, INCOMPLETE_COMPATIBLE} ==> t.marker.None? && t.history == [] && t.progress == []
    ensures Inspect(t, problems).COMPLETE? <==> t.marker.Some? && !problems && ALL_OBJECTS <= t.objects
  {
    var missing := ALL_OBJECTS - t.objects;
    assert forall item | item in ALL_OBJECTS :: item in t.objects || item in missing;
    forall item: MetaObject ensures item in ALL_OBJECTS {
      match item
      case HISTORY_TABLE =>
      case ACTIVE_INDEX =>
      case PROGRESS_TABLE =>
      case META_TABLE =>
    }
  }

  /** Initialization interrupted any number of times leaves a prefix of the
      creation order that the next run completes: it is never damage. */
  lemma {:induction false} InterruptedInitializationIsNotDamage(states: seq<Tables>, runs: seq<Run>, i: nat)
    requires Journey(states, runs) && EmptyNamespace(states[0]) && i < |states|
    ensures !Inspect(states[i], false).DAMAGED?
    ensures CreatedInOrder(states[i].objects)
    ensures states[i].marker.Some? ==> ALL_OBJECTS <= states[i].objects
    ensures states[i].marker.Some? <==> Inspect(states[i], false).COMPLETE?
  {
    EveryReachableStateIsAccepted(states, runs, i);
    InspectionMeans(states[i], false) by {
      assert Physical(states[i]);
    }
  }
}
