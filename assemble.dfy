/** The construction of the new phase sub-tree in the add-phase block: the
    ids are handed out by a counter that starts after the largest id of the
    document, in a fixed order, and every back-link is set from them. */
module Assemble {
  import opened Json
  import opened Factory
  import opened Finalize
  import opened Shape

  /** The review step's leaves, taking ids from `start` on: READY and
      COMPLETE, then WITNESS and VERIFY when asked for. */
  method BuildReviewLeaves(reviewId: int, start: int, hasWitness: bool, hasVerify: bool)
    returns (steps: seq<Step>, next: int)
    ensures next == start + 2 + Count(hasWitness) + Count(hasVerify)
    ensures StepIds(steps) == Range(start, next)
    ensures OwnedLeaves(steps, reviewId)
    ensures |steps| >= 2 && steps[0].stepType == IterationReadyForReview && steps[1].stepType == IterationComplete
    ensures SignOffs(steps) == (if hasWitness then [Witness] else []) + (if hasVerify then [Verify] else [])
  {
    var currentId := start;
    steps := [
      Leaf(currentId, reviewId, IterationReadyForReview, false, false, false),
      Leaf(currentId + 1, reviewId, IterationComplete, true, false, true)];
    currentId := currentId + 2;
    PlainLeaves(steps, start);
    assert OwnedLeaves(steps, reviewId);
    if hasWitness {
      StepIdsAppend(steps, SignOffLeaf(currentId, reviewId, Witness));
      OwnedAppend(steps, SignOffLeaf(currentId, reviewId, Witness), reviewId);
      steps := steps + [SignOffLeaf(currentId, reviewId, Witness)];
      currentId := currentId + 1;
    }
    if hasVerify {
      StepIdsAppend(steps, SignOffLeaf(currentId, reviewId, Verify));
      OwnedAppend(steps, SignOffLeaf(currentId, reviewId, Verify), reviewId);
      steps := steps + [SignOffLeaf(currentId, reviewId, Verify)];
      currentId := currentId + 1;
    }
    next := currentId;
  }

  /** The ITERATION_REVIEW step under phase `phaseId`, taking ids from
      `start` on: the step, then its leaves. */
  method BuildReview(ctx: Context, phaseId: int, start: int, hasWitness: bool, hasVerify: bool)
    returns (review: Node, next: int)
    ensures next == start + 3 + Count(hasWitness) + Count(hasVerify)
    ensures NodeIds(review) == Range(start, next)
    ensures review.id == start && review.ctx == ctx && review.parentId == Some(Num(phaseId))
    ensures IsReview(review) && Linked(review)
    ensures SignOffs(review.steps) ==
      (if hasWitness then [Witness] else []) + (if hasVerify then [Verify] else [])
    ensures AllSignOffs(review) == SignOffs(review.steps)
    ensures ScalarContext(ctx) ==> ScalarRefs(review)
  {
    var steps;
    steps, next := BuildReviewLeaves(start, start + 1, hasWitness, hasVerify);
    review := Node(start, ctx, "", PhaseStep, IterationReview, None,
      Some(Num(phaseId)), Some(start), Some(1000), false, None, [], steps);
    RangeCons(start, next);
    LeafNode(review);
    if ScalarContext(ctx) {
      ScalarRefsFromChildren(review);
    }
  }

  /** The CORRECTION sub-step of data-entry step `dataEntryId` with its
      three leaves, taking ids from `start` on. */
  method BuildCorrection(ctx: Context, dataEntryId: int, start: int) returns (correction: Node, next: int)
    ensures next == start + 4
    ensures NodeIds(correction) == Range(start, next)
    ensures correction.id == start && correction.ctx == ctx && correction.parentId == Some(Num(dataEntryId))
    ensures IsCorrection(correction, dataEntryId) && Linked(correction)
    ensures AllSignOffs(correction) == []
    ensures ScalarContext(ctx) ==> ScalarRefs(correction)
  {
    var correctionId := start;
    var currentId := start + 1;
    var steps := [
      Leaf(currentId, correctionId, CorrectionStart, false, true, false),
      Leaf(currentId + 1, correctionId, CorrectionEnd, false, true, false),
      Leaf(currentId + 2, correctionId, CorrectionCancel, false, true, false)];
    currentId := currentId + 3;
    PlainLeaves(steps, start + 1);
    correction := Node(correctionId, ctx, "", SubPhaseStep, Correction, Some(PrimaryDataEntry),
      Some(Num(dataEntryId)), Some(dataEntryId), Some(1), false, None, [], steps);
    next := currentId;
    RangeCons(start, next);
    assert ChildSignOffs([]) == [];
  }

  /** The GENERAL_TEXT leaf of data-entry step `dataEntryId`, with its
      out-of-range trigger and that trigger's REJECT action, taking ids
      from `start` on. */
  function GeneralTextLeaf(dataEntryId: int, start: int): (s: Step)
    ensures [s.id] + TriggerIds(s.triggers) == Range(start, start + 3)
    ensures s.structureId == dataEntryId && StepLinked(s) && s.signOff == None
  {
    var s := Step(start, dataEntryId, GeneralTextStep, None, false, false, true,
      [Trigger(start + 1, start, [Action(start + 2, start + 1)])]);
    assert ActionIds(s.triggers[0].actions) == [start + 2];
    assert TriggerIds(s.triggers) == [start + 1, start + 2];
    s
  }

  /** The DATA_ENTRY step under phase `phaseId`, taking ids from `start`
      on: the step, its correction sub-step and leaves, the GENERAL_TEXT
      leaf with trigger and action, then WITNESS when asked for. */
  method BuildDataEntry(ctx: Context, phaseId: int, start: int, title: string, displayOnRbe: bool,
    hasWitness: bool)
    returns (dataEntry: Node, next: int)
    ensures next == start + 8 + Count(hasWitness)
    ensures NodeIds(dataEntry) == Range(start, next)
    ensures dataEntry.id == start && dataEntry.ctx == ctx && dataEntry.parentId == Some(Num(phaseId))
    ensures IsDataEntry(dataEntry, title, displayOnRbe) && Linked(dataEntry)
    ensures SignOffs(dataEntry.steps) == if hasWitness then [Witness] else []
    ensures AllSignOffs(dataEntry) == SignOffs(dataEntry.steps)
    ensures ScalarContext(ctx) ==> ScalarRefs(dataEntry)
  {
    var dataEntryId := start;
    var correction, currentId := BuildCorrection(ctx, dataEntryId, start + 1);
    var generalText := GeneralTextLeaf(dataEntryId, currentId);
    var steps := [generalText];
    assert StepIds(steps) == Range(currentId, currentId + 3);
    assert SignOffs(steps) == [];
    currentId := currentId + 3;
    if hasWitness {
      StepIdsAppend(steps, SignOffLeaf(currentId, dataEntryId, Witness));
      steps := steps + [SignOffLeaf(currentId, dataEntryId, Witness)];
      RangeSplit(start + 5, currentId, currentId + 1);
      currentId := currentId + 1;
    }
    dataEntry := Node(dataEntryId, ctx, title, PhaseStep, DataEntry, None,
      Some(Num(phaseId)), Some(dataEntryId), Some(1), displayOnRbe, Some(dataEntryId),
      [correction], steps);
    next := currentId;
    assert ChildIds([correction]) == NodeIds(correction);
    NodeIdsInRange(dataEntry, start + 5, next);
    assert ChildSignOffs([correction]) == [];
    OwnSignOffsOnly(dataEntry);
    if ScalarContext(ctx) {
      ScalarRefsFromChildren(dataEntry);
    }
  }

  /** The four leaves every phase carries, taking ids from `start` on. */
  function PhaseLeaves(phaseId: int, start: int): (ss: seq<Step>)
    ensures StepIds(ss) == Range(start, start + 4)
    ensures SignOffs(ss) == []
    ensures forall s :: s in ss ==> s.structureId == phaseId && StepLinked(s)
    ensures StepTypes(ss) ==
      [TrainingOverride, PhaseCompleteButton, PredecessorOverride, StructureComplete]
  {
    var ss := [
      Leaf(start, phaseId, TrainingOverride, false, true, false),
      Leaf(start + 1, phaseId, PhaseCompleteButton, false, false, true),
      Leaf(start + 2, phaseId, PredecessorOverride, false, true, false),
      Leaf(start + 3, phaseId, StructureComplete, true, false, true)];
    PlainLeaves(ss, start);
    ss
  }

  /** The phase's children, taking ids from `start` on: the review step,
      then, when GENERAL_TEXT is asked for, the data-entry step placed in
      front of it. WITNESS and VERIFY go on the review step only when
      there is no data-entry step; otherwise WITNESS goes on that step. */
  method BuildChildren(ctx: Context, phaseId: int, start: int, title: string,
    hasWitness: bool, hasVerify: bool, displayOnRbe: bool, wantsGeneralText: bool)
    returns (children: seq<Node>, next: int)
    ensures next == start + IdCount(wantsGeneralText, hasWitness, hasVerify) - 5
    ensures ChildIds(Reverse(children)) == Range(start, next)
    ensures forall c :: c in children ==> c.parentId == Some(Num(phaseId)) && c.ctx == ctx && Linked(c)
    ensures |children| == if wantsGeneralText then 2 else 1
    ensures IsReview(children[|children| - 1]) && children[|children| - 1].id == start
    ensures SignOffs(children[|children| - 1].steps) ==
      (if !wantsGeneralText && hasWitness then [Witness] else []) +
      (if !wantsGeneralText && hasVerify then [Verify] else [])
    ensures wantsGeneralText ==>
      IsDataEntry(children[0], title, displayOnRbe) &&
      SignOffs(children[0].steps) == (if hasWitness then [Witness] else [])
    ensures ChildSignOffs(children) ==
      (if hasWitness then [Witness] else []) + (if hasVerify && !wantsGeneralText then [Verify] else [])
    ensures ScalarContext(ctx) ==> forall c :: c in children ==> ScalarRefs(c)
  {
    var review, currentId := BuildReview(ctx, phaseId, start,
      !wantsGeneralText && hasWitness, !wantsGeneralText && hasVerify);
    if wantsGeneralText {
      var dataEntry;
      dataEntry, currentId := BuildDataEntry(ctx, phaseId, currentId, title, displayOnRbe, hasWitness);
      RangeSplit(start, start + 3, currentId);
      children := [dataEntry, review];
      TwoChildren(dataEntry, review);
      LinkedPair(dataEntry, review, phaseId, ctx);
    } else {
      children := [review];
      OneChild(review);
    }
    next := currentId;
  }

  /** The add-phase construction. `maxId` is the document's largest id and
      `phaseOrder` the new phaseOrderNumber; the three references are the
      document's `templateData.id`, `templateData.children[0].id` and
      `operation.id`. Returns the phase and the counter's final value. */
  method BuildPhase(
    title: string, hasWitness: bool, hasVerify: bool, displayOnRbe: bool, wantsGeneralText: bool,
    maxId: int, phaseOrder: int,
    masterTemplateId: Option<Json>, unitProcedureId: Option<Json>, operationId: Option<Json>)
    returns (phase: Node, next: int)
    ensures next == maxId + 1 + IdCount(wantsGeneralText, hasWitness, hasVerify)
    ensures AllocationOrder(phase) == Range(maxId + 1, next)
    ensures Linked(phase)
    ensures phase.id == maxId + 1
    ensures phase.ctx == Context(masterTemplateId, unitProcedureId, operationId, phase.id, phaseOrder)
    ensures phase.parentId == operationId
    ensures IsNewPhase(phase, title, hasWitness, hasVerify, displayOnRbe, wantsGeneralText)
    ensures phase.children[|phase.children| - 1].id == maxId + 2
    ensures ScalarOrAbsent(masterTemplateId) && ScalarOrAbsent(unitProcedureId) && ScalarOrAbsent(operationId)
      ==> ScalarRefs(phase)
  {
    var newPhaseId := maxId + 1;
    var ctx := Context(masterTemplateId, unitProcedureId, operationId, newPhaseId, phaseOrder);
    var children, currentId := BuildChildren(ctx, newPhaseId, newPhaseId + 1, title,
      hasWitness, hasVerify, displayOnRbe, wantsGeneralText);
    var steps := PhaseLeaves(newPhaseId, currentId);
    currentId := currentId + 4;
    phase := Node(newPhaseId, ctx, title, Phase, Parent, None, operationId, None, None, false, None,
      children, steps);
    next := currentId;
    AllocationInRange(phase, next - 4, next);
    OwnSignOffsFirst(phase);
    if ScalarContext(ctx) {
      ScalarRefsFromChildren(phase);
    }
  }
}
