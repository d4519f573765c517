/** All groups of a node: every operation concerns one of them and leaves the others alone. */
module GroupWorld {
  import opened Text
  import opened GroupPlans
  import opened GroupRuns

  /** What is stored under each group id that was ever used. */
  type World = map<string, History>

  function At(w: World, g: string): History
  {
    if g in w then w[g] else NoGroup
  }

  function WorldNext(w: World, step: Step): World
  {
    w[Target(step.op) := Next(At(w, Target(step.op)), step)]
  }

  function WorldRun(steps: seq<Step>): World
  {
    if steps == [] then map[] else WorldNext(WorldRun(steps[..|steps| - 1]), steps[|steps| - 1])
  }

  /** Local operations that rotate the key use ids that fit. */
  ghost predicate WorldAdmissible(steps: seq<Step>)
  {
    forall k :: 0 <= k < |steps| ==>
      Admissible(Target(steps[k].op), At(WorldRun(steps[..k]), Target(steps[k].op)), steps[k])
  }

  /** The ids drawn for new groups hold no blanks at either end. */
  ghost predicate NewIDsTrimmed(steps: seq<Step>)
  {
    forall k :: 0 <= k < |steps| && steps[k].op.CreateGroup? && steps[k].op.groupID.Some? ==>
      Trimmed(steps[k].op.groupID.value)
  }

  lemma PrefixIsAdmissible(steps: seq<Step>)
    requires WorldAdmissible(steps) && steps != []
    ensures WorldAdmissible(steps[..|steps| - 1])
    ensures var last := steps[|steps| - 1];
            Admissible(Target(last.op), At(WorldRun(steps[..|steps| - 1]), Target(last.op)), last)
  {
    var before := steps[..|steps| - 1];
    assert forall k :: 0 <= k <= |before| ==> before[..k] == steps[..k];
  }

  /** Over every run on any number of groups, each stored group is the replay of its own log. */
  lemma {:induction false} EveryWorldRunIsRecorded(steps: seq<Step>)
    requires WorldAdmissible(steps)
    ensures forall g :: g in WorldRun(steps) ==> Recorded(g, WorldRun(steps)[g])
  {
    if steps != [] {
      var before, last := steps[..|steps| - 1], steps[|steps| - 1];
      PrefixIsAdmissible(steps);
      EveryWorldRunIsRecorded(before);
      var g, w := Target(last.op), WorldRun(before);
      assert Recorded(g, At(w, g));
      StepIsRecorded(g, At(w, g), last);
    }
  }

  lemma OnlyCreationCreates(h: History, step: Step)
    requires h.cell.state.None? && Next(h, step).cell.state.Some?
    ensures step.op.CreateGroup? && step.op.groupID.Some?
  {
    PlanShape(None, step.op, PlanOf(None, step.op));
  }

  lemma {:induction false} StoredIDsAreTrimmed(steps: seq<Step>)
    requires NewIDsTrimmed(steps)
    ensures forall g :: g in WorldRun(steps) && WorldRun(steps)[g].cell.state.Some? ==> Trimmed(g)
  {
    if steps != [] {
      var before, last := steps[..|steps| - 1], steps[|steps| - 1];
      StoredIDsAreTrimmed(before);
      var g, w := Target(last.op), WorldRun(before);
      if At(w, g).cell.state.None? && WorldRun(steps)[g].cell.state.Some? {
        OnlyCreationCreates(At(w, g), last);
      }
    }
  }
}
