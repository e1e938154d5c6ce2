/** The structural validator of a template: root checks, then a walk down
    the level chain PROCEDURE, UNIT_PROCEDURE, OPERATION, PHASE, PHASE_STEP
    that collects an error for every missing identity token and every
    unexpected level. It never stops at the first error, and it never looks
    below the PHASE_STEP level. A null node makes the walk throw, and so
    does an error message that prints a title or level without a string
    form. */
module Validate {
  import opened Json
  import opened Finalize

  const LevelKey: string := "level"
  const TitleKey: string := "title"
  const ChildrenKey: string := "children"
  const SerialKey: string := "globalSerialId"
  const ReferenceKey: string := "localReferenceId"
  const DetailsKey: string := "masterTemplateDetails"

  const Procedure: string := "PROCEDURE"
  const UnitProcedure: string := "UNIT_PROCEDURE"
  const OperationLevel: string := "OPERATION"
  const PhaseLevel: string := "PHASE"
  const PhaseStepLevel: string := "PHASE_STEP"

  /** The errors the validator reports, each with the values its message
      prints: the node's title and level as found (None for undefined). */
  datatype Error =
    | RootLevel
    | MissingDetails
    | NoChildren
    | MissingSerial(title: Option<Json>)
    | MissingReference(title: Option<Json>)
    | WrongLevel(title: Option<Json>, level: Option<Json>, expected: string)

  /** The validator's answer, or the TypeError a null node raises. */
  datatype Validation = Threw | Checked(valid: bool, errors: seq<Error>)

  /** The `childLevels` table: the level expected one step further down. */
  function ChildLevel(level: string): (r: Option<string>)
    ensures r.Some? <==> level in [Procedure, UnitProcedure, OperationLevel, PhaseLevel]
  {
    if level == Procedure then Some(UnitProcedure)
    else if level == UnitProcedure then Some(OperationLevel)
    else if level == OperationLevel then Some(PhaseLevel)
    else if level == PhaseLevel then Some(PhaseStepLevel)
    else None
  }

  /** A property a template literal can print: undefined, or a value with
      a string form. */
  predicate Shows(v: Option<Json>)
  {
    v.None? || Printable(v.value)
  }

  /** A property as a template literal prints it; undefined prints as "undefined". */
  function Show(v: Option<Json>): string
    requires Shows(v)
  {
    if v.None? then "undefined" else JsString(v.value)
  }

  /** The error's message can be built: every value it prints can be printed. */
  predicate Shown(e: Error)
  {
    match e
    case MissingSerial(title) => Shows(title)
    case MissingReference(title) => Shows(title)
    case WrongLevel(title, level, _) => Shows(title) && Shows(level)
    case _ => true
  }

  predicate AllShown(errors: seq<Error>)
  {
    forall e :: e in errors ==> Shown(e)
  }

  /** The text the validator pushes for an error. */
  function Message(e: Error): string
    requires Shown(e)
  {
    match e
    case RootLevel => "Root must be level PROCEDURE"
    case MissingDetails => "Missing masterTemplateDetails"
    case NoChildren => "Root must have children array"
    case MissingSerial(title) => "Node \"" + Show(title) + "\" missing globalSerialId"
    case MissingReference(title) => "Node \"" + Show(title) + "\" missing localReferenceId"
    case WrongLevel(title, level, expected) =>
      "Node \"" + Show(title) + "\" has wrong level: " + Show(level) + ", expected " + expected
  }

  /** The node is at the expected level. */
  predicate AtLevel(node: Json, expected: string)
  {
    Get(node, LevelKey) == Some(Str(expected))
  }

  /** The errors a node gets for itself, before any of its children's. */
  function OwnErrors(node: Json, expected: string): seq<Error>
  {
    (if !Truthy(Get(node, SerialKey)) then [MissingSerial(Get(node, TitleKey))] else []) +
    (if !Truthy(Get(node, ReferenceKey)) then [MissingReference(Get(node, TitleKey))] else []) +
    (if !AtLevel(node, expected) then [WrongLevel(Get(node, TitleKey), Get(node, LevelKey), expected)] else [])
  }

  /** The children the walk visits: the elements of an array under
      "children", when the expected level has a level below it. */
  function Visited(node: Json, expected: string): (r: Option<seq<Json>>)
    ensures r.Some? ==> Get(node, ChildrenKey) == Some(Arr(r.value)) && ChildLevel(expected).Some?
    ensures r.None? ==> ChildLevel(expected).None? || !(Get(node, ChildrenKey).Some? && Get(node, ChildrenKey).value.Arr?)
    ensures r.Some? ==> forall c :: c in r.value ==> c < node
  {
    if node.Obj? && ChildLevel(expected).Some? then
      var k := KeyIndex(node.fields, ChildrenKey);
      if k < |node.fields| && node.fields[k].val.Arr? then
        assert node.fields[k] in node.fields;
        Some(node.fields[k].val.items)
      else None
    else None
  }

  /** Errors from two successive parts of the walk: a throw in the first
      ends it, a throw in the second loses the first part's errors too. */
  function Then(a: Option<seq<Error>>, b: Option<seq<Error>>): Option<seq<Error>>
  {
    if a.Some? && b.Some? then Some(a.value + b.value) else None
  }

  /** validateNode as a function: the node's own errors, then each visited
      child's in order; None when a null node is met or a message cannot be
      printed. */
  function NodeErrors(node: Json, expected: string): Option<seq<Error>>
    decreases node, 1
  {
    if node.Null? || !AllShown(OwnErrors(node, expected)) then None
    else
      var kids := Visited(node, expected);
      if kids.Some? then Then(Some(OwnErrors(node, expected)), ItemsErrors(kids.value, ChildLevel(expected).value))
      else Some(OwnErrors(node, expected))
  }

  function ItemsErrors(items: seq<Json>, expected: string): Option<seq<Error>>
    decreases items, 0
  {
    if items == [] then Some([])
    else Then(NodeErrors(items[0], expected), ItemsErrors(items[1..], expected))
  }

  /** The three root checks. */
  function RootErrors(template: Json): seq<Error>
  {
    (if !AtLevel(template, Procedure) then [RootLevel] else []) +
    (if !Truthy(Get(template, DetailsKey)) then [MissingDetails] else []) +
    (if !(Get(template, ChildrenKey).Some? && Get(template, ChildrenKey).value.Arr?) then [NoChildren] else [])
  }

  /** validateTemplateStructure as a function. */
  function Report(template: Json): Validation
  {
    var e := NodeErrors(template, Procedure);
    if e.None? then Threw
    else Checked(RootErrors(template) + e.value == [], RootErrors(template) + e.value)
  }

  // ---------------------------------------------------------------------
  // The walk as the program runs it

  /** validateNode: appends the node's errors to `errorsIn`, or throws. */
  method ValidateNode(node: Json, expected: string, errorsIn: seq<Error>)
    returns (errors: seq<Error>, threw: bool)
    ensures threw <==> NodeErrors(node, expected).None?
    ensures !threw ==> errors == errorsIn + NodeErrors(node, expected).value
    decreases node
  {
    errors := errorsIn;
    threw := false;
    if node.Null? {
      threw := true;
      return;
    }
    errors, threw := PushOwnErrors(node, expected, errors);
    if threw {
      return;
    }
    var kids := Visited(node, expected);
    if kids.Some? {
      var items := kids.value;
      var childLevel := ChildLevel(expected).value;
      ghost var own := errorsIn + OwnErrors(node, expected);
      var i := 0;
      while i < |items|
        invariant 0 <= i <= |items|
        invariant ItemsErrors(items[..i], childLevel).Some?
        invariant errors == own + ItemsErrors(items[..i], childLevel).value
      {
        var childThrew;
        ghost var before := errors;
        errors, childThrew := ValidateNode(items[i], childLevel, errors);
        if childThrew {
          NextChild(items, i, childLevel);
          assert NodeErrors(node, expected) == Then(Some(OwnErrors(node, expected)), ItemsErrors(items, childLevel));
          threw := true;
          return;
        }
        ChildStep(own, items, i, childLevel, before, errors);
        i := i + 1;
      }
      assert items[..i] == items;
      assert NodeErrors(node, expected) == Then(Some(OwnErrors(node, expected)), ItemsErrors(items, childLevel));
      Associative(errorsIn, OwnErrors(node, expected), ItemsErrors(items, childLevel).value);
    } else {
      assert NodeErrors(node, expected) == Some(OwnErrors(node, expected));
    }
  }

  /** The three checks of a node, pushed one after the other; building a
      message that prints a value without a string form throws. */
  method PushOwnErrors(node: Json, expected: string, errorsIn: seq<Error>) returns (errors: seq<Error>, threw: bool)
    ensures threw <==> !AllShown(OwnErrors(node, expected))
    ensures !threw ==> errors == errorsIn + OwnErrors(node, expected)
  {
    errors := errorsIn;
    threw := true;
    var title := Get(node, TitleKey);
    ghost var a := if !Truthy(Get(node, SerialKey)) then [MissingSerial(title)] else [];
    ghost var b := if !Truthy(Get(node, ReferenceKey)) then [MissingReference(title)] else [];
    ghost var c := if !AtLevel(node, expected) then [WrongLevel(title, Get(node, LevelKey), expected)] else [];
    assert OwnErrors(node, expected) == a + b + c;
    if !Truthy(Get(node, SerialKey)) {
      if !Shown(MissingSerial(title)) {
        assert MissingSerial(title) in OwnErrors(node, expected);
        return;
      }
      errors := errors + [MissingSerial(title)];
    }
    assert errors == errorsIn + a;
    if !Truthy(Get(node, ReferenceKey)) {
      if !Shown(MissingReference(title)) {
        assert MissingReference(title) in OwnErrors(node, expected);
        return;
      }
      errors := errors + [MissingReference(title)];
    }
    assert errors == (errorsIn + a) + b;
    if !AtLevel(node, expected) {
      var e := WrongLevel(title, Get(node, LevelKey), expected);
      if !Shown(e) {
        assert e in OwnErrors(node, expected);
        return;
      }
      errors := errors + [e];
    }
    assert errors == ((errorsIn + a) + b) + c;
    threw := false;
    Associative(errorsIn, a, b);
    Associative(errorsIn, a + b, c);
  }

  /** A child walked without a throw: its errors follow the earlier ones. */
  lemma ChildStep(own: seq<Error>, items: seq<Json>, i: nat, level: string, before: seq<Error>, after: seq<Error>)
    requires i < |items| && ItemsErrors(items[..i], level).Some?
    requires before == own + ItemsErrors(items[..i], level).value
    requires NodeErrors(items[i], level).Some? && after == before + NodeErrors(items[i], level).value
    ensures ItemsErrors(items[..i + 1], level).Some?
    ensures after == own + ItemsErrors(items[..i + 1], level).value
  {
    NextChild(items, i, level);
    Associative(own, ItemsErrors(items[..i], level).value, NodeErrors(items[i], level).value);
  }

  /** One more child walked: its errors follow the earlier children's, and
      its throw is the whole list's. */
  lemma NextChild(items: seq<Json>, i: nat, level: string)
    requires i < |items|
    ensures ItemsErrors(items[..i + 1], level) == Then(ItemsErrors(items[..i], level), NodeErrors(items[i], level))
    ensures NodeErrors(items[i], level).None? ==> ItemsErrors(items, level).None?
  {
    PrefixErrors(items, i, level);
    assert items == items[..i + 1] + items[i + 1..];
    ItemsErrorsConcat(items[..i + 1], items[i + 1..], level);
  }

  lemma PrefixErrors(items: seq<Json>, i: nat, level: string)
    requires i < |items|
    ensures ItemsErrors(items[..i + 1], level) == Then(ItemsErrors(items[..i], level), NodeErrors(items[i], level))
  {
    assert items[..i + 1] == items[..i] + [items[i]];
    ItemsErrorsConcat(items[..i], [items[i]], level);
    assert ItemsErrors([items[i]], level) == Then(NodeErrors(items[i], level), Some([]));
    if NodeErrors(items[i], level).Some? {
      assert NodeErrors(items[i], level).value + [] == NodeErrors(items[i], level).value;
    }
  }

  /** validateTemplateStructure. */
  method ValidateTemplate(template: Json) returns (r: Validation)
    ensures r == Report(template)
  {
    if template.Null? {
      return Threw;
    }
    var errors: seq<Error> := [];
    if !AtLevel(template, Procedure) {
      errors := errors + [RootLevel];
    }
    if !Truthy(Get(template, DetailsKey)) {
      errors := errors + [MissingDetails];
    }
    if !(Get(template, ChildrenKey).Some? && Get(template, ChildrenKey).value.Arr?) {
      errors := errors + [NoChildren];
    }
    assert errors == RootErrors(template);
    var threw;
    errors, threw := ValidateNode(template, Procedure, errors);
    if threw {
      return Threw;
    }
    assert errors == RootErrors(template) + NodeErrors(template, Procedure).value;
    r := Checked(|errors| == 0, errors);
  }

  // ---------------------------------------------------------------------
  // What the errors mean

  lemma {:induction false} ItemsErrorsConcat(a: seq<Json>, b: seq<Json>, expected: string)
    ensures ItemsErrors(a + b, expected) == Then(ItemsErrors(a, expected), ItemsErrors(b, expected))
    decreases a
  {
    if a == [] {
      assert a + b == b;
      if ItemsErrors(b, expected).Some? {
        assert [] + ItemsErrors(b, expected).value == ItemsErrors(b, expected).value;
      }
    } else {
      assert (a + b)[1..] == a[1..] + b;
      ItemsErrorsConcat(a[1..], b, expected);
      ThenAssociative(NodeErrors(a[0], expected), ItemsErrors(a[1..], expected), ItemsErrors(b, expected));
    }
  }

  lemma ThenAssociative(x: Option<seq<Error>>, y: Option<seq<Error>>, z: Option<seq<Error>>)
    ensures Then(Then(x, y), z) == Then(x, Then(y, z))
  {
    if x.Some? && y.Some? && z.Some? {
      assert (x.value + y.value) + z.value == x.value + (y.value + z.value);
    }
  }

  /** A well-formed subtree, stated independently of the error messages:
      every node is an object with both identity tokens and the level the
      chain expects, down to the PHASE_STEP level. */
  ghost predicate WellFormed(node: Json, expected: string)
    decreases node, 1
  {
    && !node.Null?
    && Truthy(Get(node, SerialKey)) && Truthy(Get(node, ReferenceKey)) && AtLevel(node, expected)
    && (Visited(node, expected).Some? ==> AllWellFormed(Visited(node, expected).value, ChildLevel(expected).value))
  }

  ghost predicate AllWellFormed(items: seq<Json>, expected: string)
    decreases items, 0
  {
    items != [] ==> WellFormed(items[0], expected) && AllWellFormed(items[1..], expected)
  }

  /** The walk finds no error exactly in a well-formed subtree. */
  lemma {:induction false} NoErrorsIffWellFormed(node: Json, expected: string)
    ensures NodeErrors(node, expected) == Some([]) <==> WellFormed(node, expected)
    decreases node, 1
  {
    var kids := Visited(node, expected);
    if !node.Null? && kids.Some? {
      NoItemErrorsIffWellFormed(kids.value, ChildLevel(expected).value);
    }
  }

  lemma {:induction false} NoItemErrorsIffWellFormed(items: seq<Json>, expected: string)
    ensures ItemsErrors(items, expected) == Some([]) <==> AllWellFormed(items, expected)
    decreases items, 0
  {
    if items != [] {
      NoErrorsIffWellFormed(items[0], expected);
      NoItemErrorsIffWellFormed(items[1..], expected);
    }
  }

  /** A template is valid exactly when the root checks pass and the whole
      tree is well-formed. */
  lemma ValidIffWellFormed(template: Json)
    ensures Report(template).Checked? && Report(template).valid <==>
      && AtLevel(template, Procedure)
      && Truthy(Get(template, DetailsKey))
      && Get(template, ChildrenKey).Some? && Get(template, ChildrenKey).value.Arr?
      && WellFormed(template, Procedure)
  {
    NoErrorsIffWellFormed(template, Procedure);
  }

  /** A root at the wrong level is reported twice: once by the root check
      and once by the walk. */
  lemma WrongRootLevelTwice(template: Json)
    requires !AtLevel(template, Procedure) && Report(template).Checked?
    ensures var e := Report(template).errors;
      e[0] == RootLevel && WrongLevel(Get(template, TitleKey), Get(template, LevelKey), Procedure) in e
  {
    var own := OwnErrors(template, Procedure);
    assert WrongLevel(Get(template, TitleKey), Get(template, LevelKey), Procedure) in own;
    var kids := Visited(template, Procedure);
    if kids.Some? {
      var rest := ItemsErrors(kids.value, UnitProcedure).value;
      assert NodeErrors(template, Procedure).value == own + rest;
    }
    assert WrongLevel(Get(template, TitleKey), Get(template, LevelKey), Procedure) in NodeErrors(template, Procedure).value;
  }

  /** Nothing under a PHASE_STEP is looked at: its children neither add
      errors nor make the walk throw. */
  lemma PhaseStepChildrenIgnored(node: Json)
    ensures NodeErrors(node, PhaseStepLevel) ==
      if Faulty(node, PhaseStepLevel) then None else Some(OwnErrors(node, PhaseStepLevel))
  {
    FaultyIffNotShown(node, PhaseStepLevel);
  }

  /** A throw in any visited child is its parent's throw: the errors
      collected so far are discarded, there is no partial report. */
  lemma ChildThrowPropagates(node: Json, expected: string, i: nat)
    requires !node.Null? && Visited(node, expected).Some?
    requires i < |Visited(node, expected).value|
    requires NodeErrors(Visited(node, expected).value[i], ChildLevel(expected).value).None?
    ensures NodeErrors(node, expected).None?
  {
    var items := Visited(node, expected).value;
    var level := ChildLevel(expected).value;
    assert items == items[..i] + ([items[i]] + items[i + 1..]);
    ItemsErrorsConcat(items[..i], [items[i]] + items[i + 1..], level);
  }

  /** The node itself makes the walk throw: it is null, or a message it
      gets prints a title or level without a string form. */
  predicate Faulty(node: Json, expected: string)
  {
    || node.Null?
    || (!Shows(Get(node, TitleKey)) &&
        (!Truthy(Get(node, SerialKey)) || !Truthy(Get(node, ReferenceKey)) || !AtLevel(node, expected)))
    || (!AtLevel(node, expected) && !Shows(Get(node, LevelKey)))
  }

  lemma FaultyIffNotShown(node: Json, expected: string)
    ensures Faulty(node, expected) <==> node.Null? || !AllShown(OwnErrors(node, expected))
  {
    var title := Get(node, TitleKey);
    var own := OwnErrors(node, expected);
    if !Truthy(Get(node, SerialKey)) {
      assert MissingSerial(title) in own;
    }
    if !Truthy(Get(node, ReferenceKey)) {
      assert MissingReference(title) in own;
    }
    if !AtLevel(node, expected) {
      assert WrongLevel(title, Get(node, LevelKey), expected) in own;
    }
  }

  /** The walk meets a faulty node: the node itself, or one below a visited
      child. */
  ghost predicate ReachesFault(node: Json, expected: string)
    decreases node, 1
  {
    Faulty(node, expected) ||
    (Visited(node, expected).Some? && AnyReachesFault(Visited(node, expected).value, ChildLevel(expected).value))
  }

  ghost predicate AnyReachesFault(items: seq<Json>, expected: string)
    decreases items, 0
  {
    items != [] && (ReachesFault(items[0], expected) || AnyReachesFault(items[1..], expected))
  }

  /** The walk throws exactly when it meets a faulty node, at any depth. */
  lemma {:induction false} ThrowsIffReachesFault(node: Json, expected: string)
    ensures NodeErrors(node, expected).None? <==> ReachesFault(node, expected)
    decreases node, 1
  {
    FaultyIffNotShown(node, expected);
    var kids := Visited(node, expected);
    if !Faulty(node, expected) && kids.Some? {
      ItemsThrowIffReachFault(kids.value, ChildLevel(expected).value);
    }
  }

  lemma {:induction false} ItemsThrowIffReachFault(items: seq<Json>, expected: string)
    ensures ItemsErrors(items, expected).None? <==> AnyReachesFault(items, expected)
    decreases items, 0
  {
    if items != [] {
      ThrowsIffReachesFault(items[0], expected);
      ItemsThrowIffReachFault(items[1..], expected);
    }
  }

  /** validateTemplateStructure throws exactly when a faulty node sits
      where the walk looks, however deep. */
  lemma ReportThrowsIffFaultReached(template: Json)
    ensures Report(template).Threw? <==> ReachesFault(template, Procedure)
  {
    ThrowsIffReachesFault(template, Procedure);
  }

  /** A node in error whose title has no string form makes the whole
      validation throw: `{"title": {"toString": 0}}` has no report. */
  lemma UnprintableTitleThrows()
    ensures Report(Obj([Field(TitleKey, Obj([Field("toString", Num(0))]))])).Threw?
  {
    var t := Obj([Field("toString", Num(0))]);
    var node := Obj([Field(TitleKey, t)]);
    assert Get(node, TitleKey) == Some(t);
    assert !Printable(t);
    assert !Truthy(Get(node, SerialKey));
    assert Faulty(node, Procedure);
    FaultyIffNotShown(node, Procedure);
  }
}
