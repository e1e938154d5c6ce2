/** The records the add-phase block builds: a PHASE node, its PHASE_STEP
    children (ITERATION_REVIEW, and DATA_ENTRY with its CORRECTION
    sub-step), and the dataCaptureSteps leaves with their action triggers and
    actions. Only the structural fields are kept; the encoding writes them as
    the JSON objects that are spliced into the document. */
module Factory {
  import opened Json
  import opened Finalize
  import opened MaxId

  /** The values every node of the new sub-tree shares: the document's
      `templateData.id`, `templateData.children[0].id` and `operation.id`
      (None when undefined), the new phase id and the new phase order. */
  datatype Context = Context(
    masterTemplateId: Option<Json>,
    unitProcedureId: Option<Json>,
    operationId: Option<Json>,
    phaseId: int,
    phaseOrderNumber: int)

  datatype SignOff = SignOff(signOffType: string, uniqueRequired: bool)

  /** An action of type REJECT, pointing back at its trigger. */
  datatype Action = Action(id: int, stepActionTriggerId: int)

  /** The OUT_OF_NUMERIC_RANGE trigger (character limit 1..120), pointing
      back at its data-capture step. */
  datatype Trigger = Trigger(id: int, dataCaptureStepId: int, actions: seq<Action>)

  /** A dataCaptureSteps leaf. */
  datatype Step = Step(
    id: int,
    structureId: int,
    stepType: string,
    signOff: Option<SignOff>,
    autoCaptured: bool,
    optionalStep: bool,
    primaryStep: bool,
    triggers: seq<Trigger>)

  /** A structure node: the phase, a phase step or a sub-phase step.
      `displayOnRbe` is alwaysDisplayedOnReviewByException; `structureDisplay`
      holds the structureId of the structureDisplay record, when there is one. */
  datatype Node = Node(
    id: int,
    ctx: Context,
    title: string,
    level: string,
    nodeType: string,
    correctionType: Option<string>,
    parentId: Option<Json>,
    phaseStepId: Option<int>,
    phaseStepOrderNumber: Option<int>,
    displayOnRbe: bool,
    structureDisplay: Option<int>,
    children: seq<Node>,
    steps: seq<Step>)

  // ---------------------------------------------------------------------
  // Ids

  /** The numeric ids of a node in the order the max-id scan visits its
      encoding: the node, its children, then its leaves. */
  function NodeIds(n: Node): seq<int>
    decreases n, 1
  {
    [n.id] + ChildIds(n.children) + StepIds(n.steps)
  }

  function ChildIds(cs: seq<Node>): seq<int>
    decreases cs, 0
  {
    if cs == [] then [] else NodeIds(cs[0]) + ChildIds(cs[1..])
  }

  function StepIds(ss: seq<Step>): seq<int>
  {
    if ss == [] then [] else [ss[0].id] + TriggerIds(ss[0].triggers) + StepIds(ss[1..])
  }

  function TriggerIds(ts: seq<Trigger>): seq<int>
  {
    if ts == [] then [] else [ts[0].id] + ActionIds(ts[0].actions) + TriggerIds(ts[1..])
  }

  function ActionIds(acts: seq<Action>): seq<int>
  {
    if acts == [] then [] else [acts[0].id] + ActionIds(acts[1..])
  }

  function Reverse<T>(s: seq<T>): (r: seq<T>)
    ensures |r| == |s|
  {
    if s == [] then [] else Reverse(s[1..]) + [s[0]]
  }

  /** The order in which the counter hands the ids out: the node, then its
      children from the last to the first, then its leaves. */
  function AllocationOrder(n: Node): seq<int>
  {
    [n.id] + ChildIds(Reverse(n.children)) + StepIds(n.steps)
  }

  lemma {:induction false} ChildIdsConcat(a: seq<Node>, b: seq<Node>)
    ensures ChildIds(a + b) == ChildIds(a) + ChildIds(b)
  {
    if a == [] {
      assert a + b == b;
    } else {
      calc {
        ChildIds(a + b);
        NodeIds((a + b)[0]) + ChildIds((a + b)[1..]);
        { assert (a + b)[0] == a[0] && (a + b)[1..] == a[1..] + b; }
        NodeIds(a[0]) + ChildIds(a[1..] + b);
        { ChildIdsConcat(a[1..], b); }
        NodeIds(a[0]) + (ChildIds(a[1..]) + ChildIds(b));
      }
    }
  }

  /** Visiting the children in reverse meets the same ids, each as often. */
  lemma {:induction false} ChildIdsReverse(cs: seq<Node>)
    ensures multiset(ChildIds(Reverse(cs))) == multiset(ChildIds(cs))
  {
    if cs != [] {
      ChildIdsReverse(cs[1..]);
      ChildIdsConcat(Reverse(cs[1..]), [cs[0]]);
      assert ChildIds([cs[0]]) == NodeIds(cs[0]);
    }
  }

  /** The allocation order and the scan order list the same ids. */
  lemma AllocationOrderIsScanOrder(n: Node)
    ensures multiset(AllocationOrder(n)) == multiset(NodeIds(n))
  {
    ChildIdsReverse(n.children);
  }

  // ---------------------------------------------------------------------
  // Cross-references

  /** Every back-link inside the node agrees with the ids: each leaf's
      structureId is its owner's id, each trigger's dataCaptureStepId its
      step's id, each action's stepActionTriggerId its trigger's id, the
      structureDisplay names the node itself, and each child names the node
      as its parent and shares its context. */
  predicate Linked(n: Node)
    decreases n
  {
    && (forall s :: s in n.steps ==> s.structureId == n.id && StepLinked(s))
    && (n.structureDisplay.Some? ==> n.structureDisplay.value == n.id)
    && (forall c :: c in n.children ==> c.parentId == Some(Num(n.id)) && c.ctx == n.ctx && Linked(c))
  }

  predicate StepLinked(s: Step)
  {
    forall t :: t in s.triggers ==>
      t.dataCaptureStepId == s.id && forall a :: a in t.actions ==> a.stepActionTriggerId == t.id
  }

  /** The sign-offs a node's leaves carry, in order. */
  function SignOffs(ss: seq<Step>): seq<SignOff>
  {
    if ss == [] then []
    else (if ss[0].signOff.Some? then [ss[0].signOff.value] else []) + SignOffs(ss[1..])
  }

  /** Every sign-off in the node's sub-tree: its children's, then its own. */
  function AllSignOffs(n: Node): seq<SignOff>
    decreases n, 1
  {
    ChildSignOffs(n.children) + SignOffs(n.steps)
  }

  function ChildSignOffs(cs: seq<Node>): seq<SignOff>
    decreases cs, 0
  {
    if cs == [] then [] else AllSignOffs(cs[0]) + ChildSignOffs(cs[1..])
  }

  lemma StepIdsAppend(ss: seq<Step>, s: Step)
    ensures StepIds(ss + [s]) == StepIds(ss) + ([s.id] + TriggerIds(s.triggers))
    ensures SignOffs(ss + [s]) == SignOffs(ss) + (if s.signOff.Some? then [s.signOff.value] else [])
  {
    OwnIdsAppend(ss, s);
    SignOffsAppend(ss, s);
  }

  lemma OwnIdsAppend(ss: seq<Step>, s: Step)
    ensures StepIds(ss + [s]) == StepIds(ss) + ([s.id] + TriggerIds(s.triggers))
  {
    if ss == [] {
      assert [s][1..] == [];
    } else {
      assert (ss + [s])[0] == ss[0] && (ss + [s])[1..] == ss[1..] + [s];
      OwnIdsAppend(ss[1..], s);
      Associative([ss[0].id] + TriggerIds(ss[0].triggers), StepIds(ss[1..]), [s.id] + TriggerIds(s.triggers));
    }
  }

  lemma SignOffsAppend(ss: seq<Step>, s: Step)
    ensures SignOffs(ss + [s]) == SignOffs(ss) + (if s.signOff.Some? then [s.signOff.value] else [])
  {
    if ss == [] {
      assert [s][1..] == [];
    } else {
      var h := if ss[0].signOff.Some? then [ss[0].signOff.value] else [];
      assert (ss + [s])[0] == ss[0] && (ss + [s])[1..] == ss[1..] + [s];
      SignOffsAppend(ss[1..], s);
      Associative(h, SignOffs(ss[1..]), if s.signOff.Some? then [s.signOff.value] else []);
    }
  }

  /** The values a node copies from the document hold nothing nested. */
  predicate ScalarRefs(n: Node)
    decreases n
  {
    && ScalarOrAbsent(n.ctx.masterTemplateId)
    && ScalarOrAbsent(n.ctx.unitProcedureId)
    && ScalarOrAbsent(n.ctx.operationId)
    && ScalarOrAbsent(n.parentId)
    && forall c :: c in n.children ==> ScalarRefs(c)
  }

  // ---------------------------------------------------------------------
  // Encoding as JSON

  /** The value a token field holds before the document is finalized. The
      finalizer replaces every token value, so which value it is does not
      show in the result (the token ensures of Finalize.Regenerate). */
  const Pending: Json := Str("")

  /** A JSON value with nothing nested in it. */
  type ScalarJson = j: Json | Scalar(j) witness Null

  /** A field whose value is a scalar. */
  datatype Attr = Attr(key: string, val: ScalarJson)

  function Fields(attrs: seq<Attr>): seq<Field>
  {
    if attrs == [] then [] else [Field(attrs[0].key, attrs[0].val)] + Fields(attrs[1..])
  }

  /** A field copied from the document, present unless undefined. */
  function Present(key: string, v: Option<Json>): seq<Field>
  {
    if v.Some? then [Field(key, v.value)] else []
  }

  function NumAttr(key: string, v: Option<int>): seq<Attr>
  {
    if v.Some? then [Attr(key, Num(v.value))] else []
  }

  function StrAttr(key: string, v: Option<string>): seq<Attr>
  {
    if v.Some? then [Attr(key, Str(v.value))] else []
  }

  // The keys of the encoded records.
  const KeyId: string := "id"
  const KeyGlobalSerialId: string := "globalSerialId"
  const KeyLocalReferenceId: string := "localReferenceId"
  const KeyTitle: string := "title"
  const KeyAlwaysDisplayedOnReviewByException: string := "alwaysDisplayedOnReviewByException"
  const KeyType: string := "type"
  const KeyCorrectionType: string := "correctionType"
  const KeyPhaseId: string := "phaseId"
  const KeyPhaseStepId: string := "phaseStepId"
  const KeyUnitProcedureOrderNumber: string := "unitProcedureOrderNumber"
  const KeyOperationOrderNumber: string := "operationOrderNumber"
  const KeyPhaseOrderNumber: string := "phaseOrderNumber"
  const KeyPhaseStepOrderNumber: string := "phaseStepOrderNumber"
  const KeyLevel: string := "level"
  const KeyStructureDisplay: string := "structureDisplay"
  const KeyStructureId: string := "structureId"
  const KeyDisplayOrderNumber: string := "displayOrderNumber"
  const KeyChildren: string := "children"
  const KeyDataCaptureSteps: string := "dataCaptureSteps"
  const KeySignOffType: string := "signOffType"
  const KeyAutoCaptured: string := "autoCaptured"
  const KeyOptionalStep: string := "optionalStep"
  const KeyPrimaryStep: string := "primaryStep"
  const KeyUniqueSignOffRequired: string := "uniqueSignOffRequired"
  const KeyActionTriggers: string := "actionTriggers"
  const KeyDataCaptureStepId: string := "dataCaptureStepId"
  const KeyDisplayedOnInterface: string := "displayedOnInterface"
  const KeyLabel: string := "label"
  const KeyMinimumValue: string := "minimumValue"
  const KeyMinimumValuePrecision: string := "minimumValuePrecision"
  const KeyMaximumValue: string := "maximumValue"
  const KeyMaximumValuePrecision: string := "maximumValuePrecision"
  const KeyTriggerType: string := "triggerType"
  const KeyActions: string := "actions"
  const KeyNotApplicableStructures: string := "notApplicableStructures"
  const KeyStepActionTriggerId: string := "stepActionTriggerId"
  const KeyMasterTemplateId: string := "masterTemplateId"
  const KeyUnitProcedureId: string := "unitProcedureId"
  const KeyOperationId: string := "operationId"
  const KeyParentId: string := "parentId"

  /** The scalar fields of a node after its id. */
  function Attrs(n: Node): seq<Attr>
  {
    [ Attr(KeyGlobalSerialId, Pending),
      Attr(KeyLocalReferenceId, Pending),
      Attr(KeyTitle, Str(n.title)),
      Attr(KeyAlwaysDisplayedOnReviewByException, Bool(n.displayOnRbe)),
      Attr(KeyType, Str(n.nodeType)) ]
    + StrAttr(KeyCorrectionType, n.correctionType)
    + [Attr(KeyPhaseId, Num(n.ctx.phaseId))]
    + NumAttr(KeyPhaseStepId, n.phaseStepId)
    + [ Attr(KeyUnitProcedureOrderNumber, Num(1)),
        Attr(KeyOperationOrderNumber, Num(1)),
        Attr(KeyPhaseOrderNumber, Num(n.ctx.phaseOrderNumber)) ]
    + NumAttr(KeyPhaseStepOrderNumber, n.phaseStepOrderNumber)
    + [Attr(KeyLevel, Str(n.level))]
  }

  /** The fields whose values come from the document. */
  function Refs(n: Node): seq<Field>
  {
    Present(KeyMasterTemplateId, n.ctx.masterTemplateId)
    + Present(KeyUnitProcedureId, n.ctx.unitProcedureId)
    + Present(KeyOperationId, n.ctx.operationId)
    + Present(KeyParentId, n.parentId)
  }

  function Display(n: Node): seq<Field>
  {
    if n.structureDisplay.Some? then
      [Field(KeyStructureDisplay, Obj([
        Field(KeyStructureId, Num(n.structureDisplay.value)),
        Field(KeyDisplayOrderNumber, Num(1))]))]
    else []
  }

  /** What follows the header: the children, the structureDisplay record
      when there is one, and the leaves. */
  function Body(n: Node): seq<Field>
    decreases n, 0
  {
    [Field(KeyChildren, Arr(EncodeChildren(n.children)))]
    + Display(n)
    + [Field(KeyDataCaptureSteps, Arr(EncodeSteps(n.steps)))]
  }

  function Encode(n: Node): Json
    decreases n, 1
  {
    Obj([Field(KeyId, Num(n.id))] + (Fields(Attrs(n)) + (Refs(n) + Body(n))))
  }

  function EncodeChildren(cs: seq<Node>): seq<Json>
    decreases cs, 2
  {
    if cs == [] then [] else [Encode(cs[0])] + EncodeChildren(cs[1..])
  }

  function StepAttrs(s: Step): seq<Attr>
  {
    [ Attr(KeyLocalReferenceId, Pending),
      Attr(KeyStructureId, Num(s.structureId)),
      Attr(KeyType, Str(s.stepType)) ]
    + (if s.signOff.Some? then [Attr(KeySignOffType, Str(s.signOff.value.signOffType))] else [])
    + [ Attr(KeyAutoCaptured, Bool(s.autoCaptured)),
        Attr(KeyOptionalStep, Bool(s.optionalStep)),
        Attr(KeyPrimaryStep, Bool(s.primaryStep)) ]
    + (if s.signOff.Some? then [Attr(KeyUniqueSignOffRequired, Bool(s.signOff.value.uniqueRequired))] else [])
  }

  function EncodeStep(s: Step): Json
  {
    Obj([Field(KeyId, Num(s.id))] + (Fields(StepAttrs(s)) + [Field(KeyActionTriggers, Arr(EncodeTriggers(s.triggers)))]))
  }

  function EncodeSteps(ss: seq<Step>): seq<Json>
  {
    if ss == [] then [] else [EncodeStep(ss[0])] + EncodeSteps(ss[1..])
  }

  function TriggerAttrs(t: Trigger): seq<Attr>
  {
    [ Attr(KeyDataCaptureStepId, Num(t.dataCaptureStepId)),
      Attr(KeyDisplayedOnInterface, Bool(true)),
      Attr(KeyLabel, Str("Character Limit: ")),
      Attr(KeyMinimumValue, Num(1)),
      Attr(KeyMinimumValuePrecision, Num(0)),
      Attr(KeyMaximumValue, Num(120)),
      Attr(KeyMaximumValuePrecision, Num(0)),
      Attr(KeyTriggerType, Str("OUT_OF_NUMERIC_RANGE")) ]
  }

  function EncodeTrigger(t: Trigger): Json
  {
    Obj([Field(KeyId, Num(t.id))] + (Fields(TriggerAttrs(t)) + TriggerBody(t)))
  }

  function TriggerBody(t: Trigger): seq<Field>
  {
    [Field(KeyActions, Arr(EncodeActions(t.actions))), Field(KeyNotApplicableStructures, Arr([]))]
  }

  function EncodeTriggers(ts: seq<Trigger>): seq<Json>
  {
    if ts == [] then [] else [EncodeTrigger(ts[0])] + EncodeTriggers(ts[1..])
  }

  function EncodeAction(a: Action): Json
  {
    Obj([Field(KeyId, Num(a.id))] + Fields([Attr(KeyStepActionTriggerId, Num(a.stepActionTriggerId)), Attr(KeyType, Str("REJECT"))]))
  }

  function EncodeActions(acts: seq<Action>): seq<Json>
  {
    if acts == [] then [] else [EncodeAction(acts[0])] + EncodeActions(acts[1..])
  }

  // ---------------------------------------------------------------------
  // What the max-id scan and the finalizer see in an encoding

  predicate NonZero(ids: seq<int>)
  {
    0 !in ids
  }

  /** Token values with nothing nested in them. */
  predicate PlainTokens(ts: seq<Json>)
  {
    forall t :: t in ts ==> Scalar(t)
  }

  lemma {:induction false} ScalarFields(attrs: seq<Attr>)
    ensures FieldIds(Fields(attrs)) == []
    ensures PlainTokens(FieldTokens(Fields(attrs)))
  {
    if attrs != [] {
      ScalarFields(attrs[1..]);
    }
  }

  lemma PresentField(key: string, v: Option<Json>)
    requires ScalarOrAbsent(v)
    ensures FieldIds(Present(key, v)) == []
    ensures PlainTokens(FieldTokens(Present(key, v)))
  {
    if v.Some? {
      assert Present(key, v)[1..] == [];
      assert Ids(v.value) == [] && Tokens(v.value) == [];
    }
  }

  lemma RefFields(n: Node)
    requires ScalarOrAbsent(n.ctx.masterTemplateId) && ScalarOrAbsent(n.ctx.unitProcedureId)
    requires ScalarOrAbsent(n.ctx.operationId) && ScalarOrAbsent(n.parentId)
    ensures FieldIds(Refs(n)) == []
    ensures PlainTokens(FieldTokens(Refs(n)))
  {
    var a := Present(KeyMasterTemplateId, n.ctx.masterTemplateId);
    var b := Present(KeyUnitProcedureId, n.ctx.unitProcedureId);
    var c := Present(KeyOperationId, n.ctx.operationId);
    var d := Present(KeyParentId, n.parentId);
    PresentField(KeyMasterTemplateId, n.ctx.masterTemplateId);
    PresentField(KeyUnitProcedureId, n.ctx.unitProcedureId);
    PresentField(KeyOperationId, n.ctx.operationId);
    PresentField(KeyParentId, n.parentId);
    FieldIdsConcat(a, b);
    FieldIdsConcat(a + b, c);
    FieldIdsConcat(a + b + c, d);
    FieldTokensConcat(a, b);
    FieldTokensConcat(a + b, c);
    FieldTokensConcat(a + b + c, d);
  }

  /** An object whose first field is a non-zero id, followed by scalar
      fields. */
  lemma IdentifiedObj(id: int, attrs: seq<Attr>, rest: seq<Field>)
    requires id != 0
    ensures Ids(Obj([Field(KeyId, Num(id))] + (Fields(attrs) + rest))) == [id] + FieldIds(rest)
    ensures PlainTokens(FieldTokens(rest)) ==>
      PlainTokens(Tokens(Obj([Field(KeyId, Num(id))] + (Fields(attrs) + rest))))
  {
    var fs := [Field(KeyId, Num(id))] + (Fields(attrs) + rest);
    assert fs[0] == Field(KeyId, Num(id));
    assert fs[1..] == Fields(attrs) + rest;
    assert OwnId(Obj(fs)) == Some(id);
    assert FieldIds(fs) == FieldIds(fs[1..]);
    assert FieldTokens(fs) == FieldTokens(fs[1..]) by {
      assert !IsTokenKey(KeyId);
    }
    ScalarFields(attrs);
    FieldIdsConcat(Fields(attrs), rest);
    FieldTokensConcat(Fields(attrs), rest);
  }

  /** A field holding a list, under a key that is not a token key. */
  lemma ListField(key: string, items: seq<Json>)
    requires !IsTokenKey(key)
    ensures FieldIds([Field(key, Arr(items))]) == ItemIds(items)
    ensures FieldTokens([Field(key, Arr(items))]) == ItemTokens(items)
  {
    assert [Field(key, Arr(items))][1..] == [];
  }

  /** A scalar field under a key that is not a token key. */
  lemma PlainField(f: Field)
    requires Scalar(f.val) && !IsTokenKey(f.key)
    ensures FieldIds([f]) == [] && FieldTokens([f]) == []
  {
    assert [f][1..] == [];
  }

  lemma DisplayFields(n: Node)
    ensures FieldIds(Display(n)) == []
    ensures FieldTokens(Display(n)) == []
  {
    if n.structureDisplay.Some? {
      var f1 := Field(KeyStructureId, Num(n.structureDisplay.value));
      var f2 := Field(KeyDisplayOrderNumber, Num(1));
      var rec := Obj([f1, f2]);
      assert Display(n) == [Field(KeyStructureDisplay, rec)];
      assert Ids(rec) == [] by {
        PlainField(f1);
        PlainField(f2);
        FieldIdsConcat([f1], [f2]);
        assert [f1] + [f2] == [f1, f2];
        assert |KeyStructureId| != |KeyId| && |KeyDisplayOrderNumber| != |KeyId|;
        assert OwnId(rec).None?;
      }
      assert Tokens(rec) == [] by {
        PlainField(f1);
        PlainField(f2);
        FieldTokensConcat([f1], [f2]);
        assert [f1] + [f2] == [f1, f2];
      }
      assert !IsTokenKey(KeyStructureDisplay) by {
        assert KeyStructureDisplay[0] != KeyLocalReferenceId[0];
      }
      assert Display(n)[1..] == [];
    }
  }

  /** The encoding of a node shows the scan exactly the node's ids, in
      order, and its token values hold nothing nested. */
  lemma {:induction false} EncodeIds(n: Node)
    requires ScalarRefs(n) && NonZero(NodeIds(n))
    ensures Ids(Encode(n)) == NodeIds(n)
    ensures PlainTokens(Tokens(Encode(n)))
    decreases n, 2
  {
    assert n.id != 0 by {
      assert NodeIds(n)[0] == n.id;
    }
    RestIds(n);
    IdentifiedObj(n.id, Attrs(n), Refs(n) + Body(n));
    Associative([n.id], ChildIds(n.children), StepIds(n.steps));
  }

  lemma {:induction false} RestIds(n: Node)
    requires ScalarRefs(n) && NonZero(NodeIds(n))
    ensures FieldIds(Refs(n) + Body(n)) == ChildIds(n.children) + StepIds(n.steps)
    ensures PlainTokens(FieldTokens(Refs(n) + Body(n)))
    decreases n, 1
  {
    BodyIds(n);
    RefFields(n);
    FieldIdsConcat(Refs(n), Body(n));
    FieldTokensConcat(Refs(n), Body(n));
  }

  lemma {:induction false} BodyIds(n: Node)
    requires forall c :: c in n.children ==> ScalarRefs(c)
    requires NonZero(ChildIds(n.children)) && NonZero(StepIds(n.steps))
    ensures FieldIds(Body(n)) == ChildIds(n.children) + StepIds(n.steps)
    ensures PlainTokens(FieldTokens(Body(n)))
    decreases n, 0
  {
    var c := [Field(KeyChildren, Arr(EncodeChildren(n.children)))];
    var d := Display(n);
    var s := [Field(KeyDataCaptureSteps, Arr(EncodeSteps(n.steps)))];
    ChildrenIds(n.children);
    StepsIds(n.steps);
    DisplayFields(n);
    ListField(KeyChildren, EncodeChildren(n.children));
    ListField(KeyDataCaptureSteps, EncodeSteps(n.steps));
    FieldIdsConcat(c, d);
    FieldIdsConcat(c + d, s);
    FieldTokensConcat(c, d);
    FieldTokensConcat(c + d, s);
  }

  lemma {:induction false} ChildrenIds(cs: seq<Node>)
    requires forall c :: c in cs ==> ScalarRefs(c)
    requires NonZero(ChildIds(cs))
    ensures ItemIds(EncodeChildren(cs)) == ChildIds(cs)
    ensures PlainTokens(ItemTokens(EncodeChildren(cs)))
    decreases cs, 0
  {
    if cs != [] {
      EncodeIds(cs[0]);
      ChildrenIds(cs[1..]);
      assert EncodeChildren(cs)[1..] == EncodeChildren(cs[1..]);
    }
  }

  lemma {:induction false} StepsIds(ss: seq<Step>)
    requires NonZero(StepIds(ss))
    ensures ItemIds(EncodeSteps(ss)) == StepIds(ss)
    ensures PlainTokens(ItemTokens(EncodeSteps(ss)))
  {
    if ss != [] {
      var s := ss[0];
      IdentifiedObj(s.id, StepAttrs(s), [Field(KeyActionTriggers, Arr(EncodeTriggers(s.triggers)))]);
      ListField(KeyActionTriggers, EncodeTriggers(s.triggers));
      TriggersIds(s.triggers);
      StepsIds(ss[1..]);
      assert EncodeSteps(ss)[1..] == EncodeSteps(ss[1..]);
    }
  }

  lemma {:induction false} TriggersIds(ts: seq<Trigger>)
    requires NonZero(TriggerIds(ts))
    ensures ItemIds(EncodeTriggers(ts)) == TriggerIds(ts)
    ensures PlainTokens(ItemTokens(EncodeTriggers(ts)))
  {
    if ts != [] {
      var t := ts[0];
      var a := [Field(KeyActions, Arr(EncodeActions(t.actions)))];
      var na := [Field(KeyNotApplicableStructures, Arr([]))];
      assert TriggerBody(t) == a + na;
      IdentifiedObj(t.id, TriggerAttrs(t), TriggerBody(t));
      ListField(KeyActions, EncodeActions(t.actions));
      ListField(KeyNotApplicableStructures, []);
      FieldIdsConcat(a, na);
      FieldTokensConcat(a, na);
      ActionsIds(t.actions);
      TriggersIds(ts[1..]);
      assert EncodeTriggers(ts)[1..] == EncodeTriggers(ts[1..]);
    }
  }

  lemma {:induction false} ActionsIds(acts: seq<Action>)
    requires NonZero(ActionIds(acts))
    ensures ItemIds(EncodeActions(acts)) == ActionIds(acts)
    ensures PlainTokens(ItemTokens(EncodeActions(acts)))
  {
    if acts != [] {
      var attrs := [Attr(KeyStepActionTriggerId, Num(acts[0].stepActionTriggerId)), Attr(KeyType, Str("REJECT"))];
      assert Fields(attrs) + [] == Fields(attrs);
      IdentifiedObj(acts[0].id, attrs, []);
      ActionsIds(acts[1..]);
      assert EncodeActions(acts)[1..] == EncodeActions(acts[1..]);
    }
  }
}
