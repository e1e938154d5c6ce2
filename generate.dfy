/** The template mutation of the generate handler: read the request, and
    when it asks for a phase, build it from ids above the document's largest
    and splice it in before the terminal phase; then finalize the document
    (fresh identity tokens, dated title and product id) in every case. */
module Generate {
  import opened Json
  import opened Finalize
  import opened MaxId
  import opened Factory
  import opened Shape
  import opened Assemble
  import opened Placement
  import opened Request

  /** What the mutation did before finalization. A failure is the exception
      the handler catches when the operation cannot be reached; the document
      is then finalized unchanged. */
  datatype Outcome =
    | Untouched          // blank request
    | NoPattern          // neither title pattern matched
    | Failed             // the operation or its children are not where the code looks
    | Added(phase: Node, next: int)

  /** The three values the new nodes copy from the document: `templateData.id`,
      `templateData.children[0].id` and `operation.id` hold plain values. */
  predicate PlainRefs(doc: Json)
  {
    && ScalarOrAbsent(Get(doc, KeyId))
    && (Unit(doc).Some? ==> ScalarOrAbsent(Get(Unit(doc).value, KeyId)))
    && (Operation(doc).Some? ==> ScalarOrAbsent(Get(Operation(doc).value, KeyId)))
  }

  /** No id occurs twice. */
  ghost predicate Unique(ids: seq<int>)
  {
    forall x :: multiset(ids)[x] <= 1
  }

  /** The generate handler on an already parsed template. `mint` is the
      token supply from position `n`, `date` the generation date. Returns
      the document as modified, the outcome, and the finalized document
      with the next unused supply position; `threw` is the failure response
      of a finalizer that throws. */
  method Generate(doc: Json, request: string, mint: nat -> string, n: nat, date: string)
    returns (modified: Json, outcome: Outcome, out: Json, next: nat, threw: bool)
    ensures outcome.Untouched? <==> Interpret(request) == Blank
    ensures outcome.NoPattern? <==> Interpret(request) == NotRecognized
    ensures outcome.Failed? <==> Interpret(request).AddPhase? && Children(doc).None?
    ensures !outcome.Added? ==> modified == doc
    ensures outcome.Added? ==>
      var intent := Interpret(request);
      var kids := Children(doc).value;
      && Children(doc).Some?
      && FreshPhase(doc, intent.title, intent.hasWitness, intent.hasVerify, intent.displayOnRbe,
           intent.wantsGeneralText, outcome.phase, outcome.next)
      && modified == Rebuild(doc, Insert(kids, TerminalIndex(kids), Encode(outcome.phase)))
      && (PlainRefs(doc) ==> IdsAdded(doc, outcome.phase.id, outcome.next, modified))
    ensures next == n + |Tokens(modified)|
    ensures threw <==> doc.Null? || TitleThrows(doc) || ProductIdThrows(doc)
    ensures !threw ==> out == WithProductId(WithTitle(Regenerate(modified, mint, n).value, date), date)
  {
    modified := doc;
    var intent := Interpret(request);
    match intent {
      case Blank =>
        outcome := Untouched;
      case NotRecognized =>
        outcome := NoPattern;
      case AddPhase(title, hasWitness, hasVerify, displayOnRbe, wantsGeneralText) =>
        modified, outcome := Splice(doc, title, hasWitness, hasVerify, displayOnRbe, wantsGeneralText);
    }
    if outcome.Added? {
      RebuildKeepsStamps(doc, Insert(Children(doc).value, TerminalIndex(Children(doc).value), Encode(outcome.phase)));
    }
    out, next, threw := FinalizeDocument(modified, mint, n, date);
  }

  /** The phase-adding branch: build the phase and splice it in before the
      terminal phase, or fail when the operation has no children list. */
  method Splice(doc: Json, title: string, hasWitness: bool, hasVerify: bool, displayOnRbe: bool,
    wantsGeneralText: bool)
    returns (modified: Json, outcome: Outcome)
    ensures outcome.Failed? <==> Children(doc).None?
    ensures outcome.Failed? || outcome.Added?
    ensures outcome.Failed? ==> modified == doc
    ensures outcome.Added? ==>
      var kids := Children(doc).value;
      && Children(doc).Some?
      && FreshPhase(doc, title, hasWitness, hasVerify, displayOnRbe, wantsGeneralText, outcome.phase, outcome.next)
      && modified == Rebuild(doc, Insert(kids, TerminalIndex(kids), Encode(outcome.phase)))
      && (PlainRefs(doc) ==> IdsAdded(doc, outcome.phase.id, outcome.next, modified))
  {
    modified := doc;
    var kids := Children(doc);
    if kids.None? {
      outcome := Failed;
    } else {
      var phase, idsNext := NewPhase(doc, title, hasWitness, hasVerify, displayOnRbe, wantsGeneralText);
      var terminal := TerminalIndex(kids.value);
      modified := Rebuild(doc, Insert(kids.value, terminal, Encode(phase)));
      outcome := Added(phase, idsNext);
      if PlainRefs(doc) {
        AllocationOrderIsScanOrder(phase);
        PlacedIds(doc, phase, phase.id, idsNext);
      }
    }
  }

  /** The phase is the one the request asks for; it takes the ids right
      above the document's largest, in allocation order, and carries the
      document's references. */
  ghost predicate FreshPhase(doc: Json, title: string, hasWitness: bool, hasVerify: bool,
    displayOnRbe: bool, wantsGeneralText: bool, phase: Node, next: int)
    requires Children(doc).Some?
  {
    && IsNewPhase(phase, title, hasWitness, hasVerify, displayOnRbe, wantsGeneralText)
    && phase.id >= 1
    && (forall i :: i in Ids(doc) ==> i < phase.id)
    && (phase.id == 1 || phase.id - 1 in Ids(doc))
    && next == phase.id + IdCount(wantsGeneralText, hasWitness, hasVerify)
    && AllocationOrder(phase) == Range(phase.id, next)
    && Linked(phase)
    && phase.ctx == Context(Get(doc, KeyId), Get(Unit(doc).value, KeyId), Get(Operation(doc).value, KeyId),
         phase.id, NewPhaseOrder(Children(doc).value))
    && phase.parentId == Get(Operation(doc).value, KeyId)
  }

  /** The modified document holds exactly the old ids and the new range,
      and plain tokens stay plain. */
  ghost predicate IdsAdded(doc: Json, first: int, next: int, modified: Json)
  {
    && multiset(Ids(modified)) == multiset(Ids(doc)) + multiset(Range(first, next))
    && (PlainTokens(Tokens(doc)) ==> PlainTokens(Tokens(modified)))
  }

  /** The handler's try block up to the splice, once the request asked for
      a phase: scan for the largest id, look up the operation's children for
      the order number, and build the phase. */
  method NewPhase(doc: Json, title: string, hasWitness: bool, hasVerify: bool, displayOnRbe: bool,
    wantsGeneralText: bool)
    returns (phase: Node, next: int)
    requires Children(doc).Some?
    ensures FreshPhase(doc, title, hasWitness, hasVerify, displayOnRbe, wantsGeneralText, phase, next)
    ensures PlainRefs(doc) ==> ScalarRefs(phase)
  {
    var maxId := FindMaxId(doc);
    var order := NewPhaseOrder(Children(doc).value);
    phase, next := BuildPhase(title, hasWitness, hasVerify, displayOnRbe, wantsGeneralText,
      maxId, order, Get(doc, KeyId), Get(Unit(doc).value, KeyId), Get(Operation(doc).value, KeyId));
    FreshFrom(doc, title, hasWitness, hasVerify, displayOnRbe, wantsGeneralText, maxId, phase, next);
  }

  lemma FreshFrom(doc: Json, title: string, hasWitness: bool, hasVerify: bool, displayOnRbe: bool,
    wantsGeneralText: bool, maxId: int, phase: Node, next: int)
    requires Children(doc).Some?
    requires maxId >= 0 && (forall i :: i in Ids(doc) ==> i <= maxId) && (maxId == 0 || maxId in Ids(doc))
    requires phase.id == maxId + 1 && next == maxId + 1 + IdCount(wantsGeneralText, hasWitness, hasVerify)
    requires AllocationOrder(phase) == Range(maxId + 1, next)
    requires IsNewPhase(phase, title, hasWitness, hasVerify, displayOnRbe, wantsGeneralText)
    requires Linked(phase) && phase.parentId == Get(Operation(doc).value, KeyId)
    requires phase.ctx == Context(Get(doc, KeyId), Get(Unit(doc).value, KeyId), Get(Operation(doc).value, KeyId),
      phase.id, NewPhaseOrder(Children(doc).value))
    ensures FreshPhase(doc, title, hasWitness, hasVerify, displayOnRbe, wantsGeneralText, phase, next)
  {
  }

  /** Splicing the encoded phase in adds exactly its ids and its tokens. */
  lemma PlacedIds(doc: Json, phase: Node, first: int, next: int)
    requires Children(doc).Some? && ScalarRefs(phase) && first >= 1
    requires multiset(NodeIds(phase)) == multiset(Range(first, next))
    ensures var kids := Children(doc).value;
      IdsAdded(doc, first, next, Rebuild(doc, Insert(kids, TerminalIndex(kids), Encode(phase))))
  {
    var kids := Children(doc).value;
    var enc := Encode(phase);
    var kids' := Insert(kids, TerminalIndex(kids), enc);
    var r := Rebuild(doc, kids');
    RangeDistinct(first, next, 0);
    assert multiset(NodeIds(phase))[0] == 0;
    EncodeIds(phase);
    InsertIds(kids, TerminalIndex(kids), enc);
    RebuildIds(doc, kids');
    Swap2(multiset(Ids(r)), multiset(ItemIds(kids)), multiset(Ids(doc)), multiset(ItemIds(kids')),
      multiset{}, multiset(Ids(enc)));
    Swap2(multiset(Tokens(r)), multiset(ItemTokens(kids)), multiset(Tokens(doc)), multiset(ItemTokens(kids')),
      multiset{}, multiset(Tokens(enc)));
    if PlainTokens(Tokens(doc)) {
      PlainUnion(Tokens(r), Tokens(doc), Tokens(enc));
    }
  }

  lemma PlainUnion(a: seq<Json>, b: seq<Json>, c: seq<Json>)
    requires multiset(a) == multiset(b) + multiset(c)
    requires PlainTokens(b) && PlainTokens(c)
    ensures PlainTokens(a)
  {
    forall t | t in a ensures Scalar(t) {
      assert t in multiset(a);
    }
  }

  /** Ids above every old one, taken from a range, keep the ids unique. */
  lemma FreshIdsStayUnique(old_: seq<int>, new_: seq<int>, first: int, next: int)
    requires Unique(old_) && forall i :: i in old_ ==> i < first
    requires multiset(new_) == multiset(old_) + multiset(Range(first, next))
    ensures Unique(new_)
  {
    forall x ensures multiset(new_)[x] <= 1 {
      RangeDistinct(first, next, x);
      if first <= x {
        assert x !in old_;
      }
    }
  }

  /** Stamping a plain title keeps the document's ids. */
  lemma WithTitleIds(x: Json, date: string)
    requires ScalarOrAbsent(Get(x, "title"))
    ensures multiset(Ids(WithTitle(x, date))) == multiset(Ids(x))
  {
    var t := Get(x, "title");
    if Truthy(t) {
      var v := Str(JsString(t.value) + TitleSuffix(date));
      StampKeys();
      AssignSameIds(x.fields, "title", v);
    }
  }

  /** Stamping a plain product id keeps the document's ids. */
  lemma WithProductIdIds(x: Json, date: string)
    requires ScalarOrAbsent(ProductId(x))
    ensures multiset(Ids(WithProductId(x, date))) == multiset(Ids(x))
  {
    if ProductId(x).Some? {
      var details := "masterTemplateDetails";
      var d := Get(x, details).value;
      var p := Get(d, "productId").value;
      var v := Str(JsString(p) + ProductIdSuffix(date));
      StampKeys();
      AssignSameIds(d.fields, "productId", v);
      AssignSameIds(x.fields, details, Obj(Assign(d.fields, "productId", v)));
    }
  }

  /** Assigning a key other than "id" a value with the same ids as the old
      one keeps the object's ids. */
  lemma AssignSameIds(fs: seq<Field>, key: string, v: Json)
    requires key != "id" && Lookup(fs, key).Some?
    requires multiset(Ids(v)) == multiset(Ids(Lookup(fs, key).value))
    ensures multiset(Ids(Obj(Assign(fs, key, v)))) == multiset(Ids(Obj(fs)))
  {
    AssignIds(fs, key, v);
    Cancel(multiset(Ids(Obj(Assign(fs, key, v)))), multiset(Ids(Obj(fs))), multiset(Ids(v)));
  }

  /** The keys the stamps write are neither "id" nor "children". */
  lemma StampKeys()
    ensures "title" != "id" && "masterTemplateDetails" != "id" && "productId" != "id"
    ensures "title" != KeyChildren && "masterTemplateDetails" != KeyChildren
  {
    assert |"title"| != |"id"| && |"masterTemplateDetails"| != |"id"| && |"productId"| != |"id"|;
    assert |"title"| != |KeyChildren| && |"masterTemplateDetails"| != |KeyChildren|;
  }

  lemma Cancel<T>(a: multiset<T>, b: multiset<T>, m: multiset<T>)
    requires a + m == b + m
    ensures a == b
  {
    forall e ensures a[e] == b[e] {
      assert (a + m)[e] == (b + m)[e];
    }
  }

  /** Finalization keeps every id of a document whose tokens, title and
      product id are plain values. */
  lemma FinalizeKeepsIds(doc: Json, mint: nat -> string, n: nat, date: string)
    requires PlainTokens(Tokens(doc))
    requires ScalarOrAbsent(Get(doc, "title")) && ScalarOrAbsent(ProductId(doc))
    ensures multiset(Ids(WithProductId(WithTitle(Regenerate(doc, mint, n).value, date), date))) ==
      multiset(Ids(doc))
  {
    var sk := Skeleton(doc);
    FinalizedIds(doc, mint, n, date);
    assert Ids(sk) == Ids(doc) by {
      SkeletonKeepsIds(doc);
    }
    SkeletonTitleIds(doc, date);
    SkeletonProductIdIds(doc, date);
  }

  /** The finalized document has the ids of the stamped skeleton, since the
      fresh tokens it holds are strings. */
  lemma FinalizedIds(doc: Json, mint: nat -> string, n: nat, date: string)
    requires ScalarOrAbsent(Get(doc, "title")) && ScalarOrAbsent(ProductId(doc))
    ensures Ids(WithProductId(WithTitle(Regenerate(doc, mint, n).value, date), date)) ==
      Ids(WithProductId(WithTitle(Skeleton(doc), date), date))
  {
    var out := WithProductId(WithTitle(Regenerate(doc, mint, n).value, date), date);
    FinalizedDocument(doc, mint, n, date);
    assert forall t :: t in Tokens(out) ==> !t.Arr? && !t.Obj?;
    SkeletonKeepsIds(out);
  }

  /** Stamping the title of the skeleton keeps its ids. */
  lemma SkeletonTitleIds(doc: Json, date: string)
    requires ScalarOrAbsent(Get(doc, "title"))
    ensures multiset(Ids(WithTitle(Skeleton(doc), date))) == multiset(Ids(Skeleton(doc)))
  {
    var sk := Skeleton(doc);
    PlainKeys();
    GetSkeleton(doc, "title");
    if Get(doc, "title").Some? {
      SkeletonKeepsKind(Get(doc, "title").value);
    }
    WithTitleIds(sk, date);
  }

  /** Stamping the product id after the title keeps the ids. */
  lemma SkeletonProductIdIds(doc: Json, date: string)
    requires ScalarOrAbsent(ProductId(doc))
    ensures var titled := WithTitle(Skeleton(doc), date);
      multiset(Ids(WithProductId(titled, date))) == multiset(Ids(titled))
  {
    var sk := Skeleton(doc);
    PlainKeys();
    ProductIdSkeleton(doc);
    if ProductId(doc).Some? {
      SkeletonKeepsKind(ProductId(doc).value);
    }
    WithTitleKeepsProductId(sk, date);
    WithProductIdIds(WithTitle(sk, date), date);
  }

  /** The splice leaves the title and the product id alone. */
  lemma RebuildKeepsStamps(doc: Json, kids: seq<Json>)
    requires Children(doc).Some?
    ensures Get(Rebuild(doc, kids), "title") == Get(doc, "title")
    ensures ProductId(Rebuild(doc, kids)) == ProductId(doc)
  {
    var r := Rebuild(doc, kids);
    var details := "masterTemplateDetails";
    StampKeys();
    RebuildKeepsKey(doc, kids, "title");
    RebuildKeepsKey(doc, kids, details);
    assert ProductId(r) == ProductId(doc) by {
      assert Get(r, details) == Get(doc, details);
    }
  }

  lemma RebuildKeepsKey(doc: Json, kids: seq<Json>, key: string)
    requires Children(doc).Some? && key != KeyChildren
    ensures Get(Rebuild(doc, kids), key) == Get(doc, key)
  {
  }

  /** End to end: when a phase was added to a document with unique ids,
      plain references, plain tokens and a plain title and product id, the
      finalized document holds the old ids and the new range, each once. */
  lemma GeneratedIdsUnique(doc: Json, phase: Node, next: int, modified: Json,
    mint: nat -> string, n: nat, date: string)
    requires Children(doc).Some? && PlainRefs(doc) && PlainTokens(Tokens(doc)) && Unique(Ids(doc))
    requires ScalarOrAbsent(Get(doc, "title")) && ScalarOrAbsent(ProductId(doc))
    requires forall i :: i in Ids(doc) ==> i < phase.id
    requires modified == Rebuild(doc, Insert(Children(doc).value, TerminalIndex(Children(doc).value), Encode(phase)))
    requires IdsAdded(doc, phase.id, next, modified)
    ensures var out := WithProductId(WithTitle(Regenerate(modified, mint, n).value, date), date);
      && multiset(Ids(out)) == multiset(Ids(doc)) + multiset(Range(phase.id, next))
      && Unique(Ids(out))
  {
    RebuildKeepsStamps(doc, Insert(Children(doc).value, TerminalIndex(Children(doc).value), Encode(phase)));
    FinalizeKeepsIds(modified, mint, n, date);
    var out := WithProductId(WithTitle(Regenerate(modified, mint, n).value, date), date);
    FreshIdsStayUnique(Ids(doc), Ids(out), phase.id, next);
  }
}
