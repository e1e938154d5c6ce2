/** The vocabulary of the add-phase construction: the names it writes,
    the id ranges its counter hands out and the shapes of the steps it
    builds. */
module Shape {
  import opened Json
  import opened Factory
  import opened Finalize

  // The level, type and step-type names the construction writes.
  const IterationReadyForReview: string := "ITERATION_READY_FOR_REVIEW"
  const IterationComplete: string := "ITERATION_COMPLETE"
  const CorrectionStart: string := "CORRECTION_START"
  const CorrectionEnd: string := "CORRECTION_END"
  const CorrectionCancel: string := "CORRECTION_CANCEL"
  const TrainingOverride: string := "TRAINING_OVERRIDE"
  const PhaseCompleteButton: string := "PHASE_COMPLETE_BUTTON"
  const PredecessorOverride: string := "PREDECESSOR_OVERRIDE"
  const StructureComplete: string := "STRUCTURE_COMPLETE"
  const GeneralTextStep: string := "GENERAL_TEXT"
  const SignOffStep: string := "SIGN_OFF"
  const PhaseStep: string := "PHASE_STEP"
  const SubPhaseStep: string := "SUB_PHASE_STEP"
  const Phase: string := "PHASE"
  const IterationReview: string := "ITERATION_REVIEW"
  const DataEntry: string := "DATA_ENTRY"
  const Correction: string := "CORRECTION"
  const PrimaryDataEntry: string := "PRIMARY_DATA_ENTRY"
  const Parent: string := "PARENT"

  const Witness: SignOff := SignOff("WITNESS", false)
  const Verify: SignOff := SignOff("VERIFY", true)

  /** The consecutive integers a, a+1, ..., b-1. */
  function Range(a: int, b: int): (r: seq<int>)
    ensures |r| == if a <= b then b - a else 0
    ensures forall i :: 0 <= i < |r| ==> r[i] == a + i
  {
    seq(if a <= b then b - a else 0, i => a + i)
  }

  lemma RangeSplit(a: int, b: int, c: int)
    requires a <= b <= c
    ensures Range(a, b) + Range(b, c) == Range(a, c)
  {
  }

  lemma RangeCons(a: int, b: int)
    requires a < b
    ensures [a] + Range(a + 1, b) == Range(a, b)
  {
  }

  /** A node whose children and leaves take consecutive ids right after
      its own takes one unbroken range. */
  lemma AllocationInRange(n: Node, b: int, c: int)
    requires n.id < b <= c
    requires ChildIds(Reverse(n.children)) == Range(n.id + 1, b) && StepIds(n.steps) == Range(b, c)
    ensures AllocationOrder(n) == Range(n.id, c)
  {
    calc {
      AllocationOrder(n);
      [n.id] + Range(n.id + 1, b) + Range(b, c);
      { RangeSplit(n.id + 1, b, c); }
      [n.id] + Range(n.id + 1, c);
      { RangeCons(n.id, c); }
      Range(n.id, c);
    }
  }

  /** Every element of Range(a, b) occurs in it once. */
  lemma RangeDistinct(a: int, b: int, x: int)
    ensures multiset(Range(a, b))[x] == if a <= x < b then 1 else 0
    decreases b - a
  {
    if a < b {
      assert Range(a, b) == [a] + Range(a + 1, b);
      RangeDistinct(a + 1, b, x);
    } else {
      assert Range(a, b) == [];
    }
  }

  function Count(b: bool): nat
  {
    if b then 1 else 0
  }

  /** How many ids the new sub-tree takes: the phase, the review step and
      its two leaves, the four phase leaves, and then either the data-entry
      block (data-entry step, correction sub-step and its three leaves, the
      GENERAL_TEXT leaf, its trigger and action, an optional WITNESS) or
      the optional WITNESS and VERIFY on the review step. */
  function IdCount(wantsGeneralText: bool, hasWitness: bool, hasVerify: bool): nat
  {
    if wantsGeneralText then 16 + Count(hasWitness)
    else 8 + Count(hasWitness) + Count(hasVerify)
  }

  function StepTypes(ss: seq<Step>): (r: seq<string>)
    ensures |r| == |ss|
    ensures forall i :: 0 <= i < |ss| ==> r[i] == ss[i].stepType
  {
    if ss == [] then [] else [ss[0].stepType] + StepTypes(ss[1..])
  }

  /** The ITERATION_REVIEW phase step: last in the phase, order 1000. */
  predicate IsReview(r: Node)
  {
    && r.level == PhaseStep && r.nodeType == IterationReview
    && r.title == "" && r.phaseStepOrderNumber == Some(1000) && r.phaseStepId == Some(r.id)
    && r.children == [] && !r.displayOnRbe
    && |r.steps| >= 2 && StepTypes(r.steps)[..2] == [IterationReadyForReview, IterationComplete]
  }

  /** The DATA_ENTRY phase step with its CORRECTION sub-step and its
      GENERAL_TEXT leaf limited to 1..120 characters. */
  predicate IsDataEntry(d: Node, title: string, displayOnRbe: bool)
  {
    && d.level == PhaseStep && d.nodeType == DataEntry
    && d.title == title && d.displayOnRbe == displayOnRbe
    && d.phaseStepOrderNumber == Some(1) && d.phaseStepId == Some(d.id)
    && d.structureDisplay == Some(d.id)
    && |d.children| == 1 && IsCorrection(d.children[0], d.id)
    && |d.steps| >= 1 && d.steps[0].stepType == GeneralTextStep && d.steps[0].primaryStep
    && |d.steps[0].triggers| == 1 && |d.steps[0].triggers[0].actions| == 1
  }

  predicate IsCorrection(c: Node, dataEntryId: int)
  {
    && c.level == SubPhaseStep && c.nodeType == Correction
    && c.correctionType == Some(PrimaryDataEntry)
    && c.phaseStepOrderNumber == Some(1) && c.phaseStepId == Some(dataEntryId)
    && c.children == []
    && StepTypes(c.steps) == [CorrectionStart, CorrectionEnd, CorrectionCancel]
  }

  /** The phase the request asks for: a PARENT node at level PHASE with
      the given title and the four phase leaves; its children are the
      data-entry step (title and RBE flag from the request, WITNESS when
      asked for) followed by the review step when GENERAL_TEXT is wanted,
      otherwise the review step alone, carrying WITNESS and VERIFY when
      asked for. VERIFY is dropped when there is a data-entry step. */
  predicate IsNewPhase(p: Node, title: string, hasWitness: bool, hasVerify: bool, displayOnRbe: bool,
    wantsGeneralText: bool)
  {
    && p.title == title && p.level == Phase && p.nodeType == Parent
    && StepTypes(p.steps) == [TrainingOverride, PhaseCompleteButton, PredecessorOverride, StructureComplete]
    && |p.children| == (if wantsGeneralText then 2 else 1)
    && IsReview(p.children[|p.children| - 1])
    && SignOffs(p.children[|p.children| - 1].steps) ==
      (if !wantsGeneralText && hasWitness then [Witness] else []) +
      (if !wantsGeneralText && hasVerify then [Verify] else [])
    && (wantsGeneralText ==>
      IsDataEntry(p.children[0], title, displayOnRbe) &&
      SignOffs(p.children[0].steps) == (if hasWitness then [Witness] else []))
    && AllSignOffs(p) ==
      (if hasWitness then [Witness] else []) + (if hasVerify && !wantsGeneralText then [Verify] else [])
  }

  /** A leaf carrying no trigger. */
  function Leaf(id: int, owner: int, stepType: string, auto: bool, optional: bool, primary: bool): Step
  {
    Step(id, owner, stepType, None, auto, optional, primary, [])
  }

  /** Leaves with consecutive ids and neither trigger nor sign-off. */
  lemma PlainLeaves(ss: seq<Step>, start: int)
    requires forall i :: 0 <= i < |ss| ==> ss[i].id == start + i && ss[i].triggers == [] && ss[i].signOff == None
    ensures StepIds(ss) == Range(start, start + |ss|)
    ensures SignOffs(ss) == []
  {
    PlainLeafIds(ss, start);
    NoSignOffs(ss);
  }

  lemma {:induction false} PlainLeafIds(ss: seq<Step>, start: int)
    requires forall i :: 0 <= i < |ss| ==> ss[i].id == start + i && ss[i].triggers == []
    ensures StepIds(ss) == Range(start, start + |ss|)
    decreases |ss|
  {
    if ss != [] {
      PlainLeafIds(ss[1..], start + 1);
      LeafIdsCons(ss, start);
    }
  }

  lemma LeafIdsCons(ss: seq<Step>, start: int)
    requires ss != [] && ss[0].id == start && ss[0].triggers == []
    requires StepIds(ss[1..]) == Range(start + 1, start + |ss|)
    ensures StepIds(ss) == Range(start, start + |ss|)
  {
    assert TriggerIds([]) == [];
    RangeCons(start, start + |ss|);
  }

  lemma {:induction false} NoSignOffs(ss: seq<Step>)
    requires forall i :: 0 <= i < |ss| ==> ss[i].signOff == None
    ensures SignOffs(ss) == []
  {
    if ss != [] {
      assert ss[0].signOff == None;
      NoSignOffs(ss[1..]);
    }
  }

  /** Leaves of node `owner` that carry no trigger. */
  predicate OwnedLeaves(ss: seq<Step>, owner: int)
  {
    forall s :: s in ss ==> s.structureId == owner && s.triggers == []
  }

  lemma OwnedAppend(ss: seq<Step>, s: Step, owner: int)
    requires OwnedLeaves(ss, owner) && s.structureId == owner && s.triggers == []
    ensures OwnedLeaves(ss + [s], owner)
  {
  }

  function SignOffLeaf(id: int, owner: int, s: SignOff): Step
  {
    Step(id, owner, SignOffStep, Some(s), false, false, false, [])
  }

  predicate ScalarContext(ctx: Context)
  {
    ScalarOrAbsent(ctx.masterTemplateId) && ScalarOrAbsent(ctx.unitProcedureId) && ScalarOrAbsent(ctx.operationId)
  }

  /** A node with no sign-off on its own leaves carries its children's. */
  lemma OwnSignOffsFirst(n: Node)
    requires SignOffs(n.steps) == []
    ensures AllSignOffs(n) == ChildSignOffs(n.children)
  {
  }

  lemma ScalarRefsFromChildren(n: Node)
    requires ScalarContext(n.ctx) && ScalarOrAbsent(n.parentId)
    requires forall c :: c in n.children ==> ScalarRefs(c)
    ensures ScalarRefs(n)
  {
  }

  /** A node without children carries its own leaves' sign-offs. */
  lemma OwnSignOffsOnly(n: Node)
    requires ChildSignOffs(n.children) == []
    ensures AllSignOffs(n) == SignOffs(n.steps)
  {
  }

  /** A node whose children and leaves take consecutive ids right after
      its own holds one unbroken range, in scan order. */
  lemma NodeIdsInRange(n: Node, b: int, c: int)
    requires n.id < b <= c
    requires ChildIds(n.children) == Range(n.id + 1, b) && StepIds(n.steps) == Range(b, c)
    ensures NodeIds(n) == Range(n.id, c)
  {
    assert NodeIds(n) == ([n.id] + Range(n.id + 1, b)) + Range(b, c);
    Associative([n.id], Range(n.id + 1, b), Range(b, c));
    RangeSplit(n.id + 1, b, c);
    RangeCons(n.id, c);
  }

  /** A node without children whose leaves carry no trigger. */
  lemma LeafNode(n: Node)
    requires n.children == [] && OwnedLeaves(n.steps, n.id) && n.structureDisplay.None?
    ensures NodeIds(n) == [n.id] + StepIds(n.steps)
    ensures AllSignOffs(n) == SignOffs(n.steps)
    ensures Linked(n)
  {
    assert ChildIds([]) == [] && ChildSignOffs([]) == [];
  }

  lemma OneChild(a: Node)
    ensures ChildIds(Reverse([a])) == NodeIds(a)
    ensures ChildSignOffs([a]) == AllSignOffs(a)
  {
    assert Reverse([a]) == [a];
    assert ChildIds([a]) == NodeIds(a) + ChildIds([]);
    assert ChildSignOffs([a]) == AllSignOffs(a) + ChildSignOffs([]);
  }

  lemma TwoChildren(a: Node, b: Node)
    ensures ChildIds(Reverse([a, b])) == NodeIds(b) + NodeIds(a)
    ensures ChildSignOffs([a, b]) == AllSignOffs(a) + AllSignOffs(b)
  {
    assert Reverse([a, b]) == [b, a] by {
      assert [a, b][1..] == [b];
      OneChild(b);
    }
    assert [b, a][1..] == [a];
    OneChild(a);
    OneChild(b);
    assert [a, b][1..] == [b];
  }

  /** Two children that each name the phase and share its context. */
  lemma LinkedPair(a: Node, b: Node, phaseId: int, ctx: Context)
    requires a.parentId == Some(Num(phaseId)) && a.ctx == ctx && Linked(a)
    requires b.parentId == Some(Num(phaseId)) && b.ctx == ctx && Linked(b)
    ensures forall c :: c in [a, b] ==> c.parentId == Some(Num(phaseId)) && c.ctx == ctx && Linked(c)
  {
  }
}
