/** Placement of the new phase among the operation's children: the operation
    is found by position (`templateData.children[0].children[0]`), the new
    order number is one more than the largest order below 1000, and the phase
    is spliced in at the index of the first terminal phase (order 1000). */
module Placement {
  import opened Json
  import opened Finalize
  import opened MaxId
  import opened Factory

  const PhaseLevel: string := "PHASE"
  const TerminalOrder: int := 1000

  // ---------------------------------------------------------------------
  // Order numbers

  /** `c.level === 'PHASE'`. */
  predicate IsPhase(c: Json)
  {
    Get(c, KeyLevel) == Some(Str(PhaseLevel))
  }

  /** `c.level === 'PHASE' && c.phaseOrderNumber === 1000`. */
  predicate IsTerminal(c: Json)
  {
    IsPhase(c) && Get(c, KeyPhaseOrderNumber) == Some(Num(TerminalOrder))
  }

  /** The number JavaScript compares and maximizes for `c.phaseOrderNumber`:
      a number as it is, null as 0, a boolean as 0 or 1; undefined (and any
      other value) is NaN, which is never below 1000. */
  function OrderValue(c: Json): Option<int>
  {
    match Get(c, KeyPhaseOrderNumber)
    case Some(Num(n)) => Some(n)
    case Some(Null) => Some(0)
    case Some(Bool(b)) => Some(if b then 1 else 0)
    case _ => None
  }

  /** A child that the filter `c.level === 'PHASE' && c.phaseOrderNumber < 1000` keeps. */
  predicate Counted(c: Json)
  {
    IsPhase(c) && OrderValue(c).Some? && OrderValue(c).value < TerminalOrder
  }

  /** `Math.max(...orders of the counted children, 0)`. */
  function MaxOrder(cs: seq<Json>): (r: int)
    ensures r >= 0
    ensures forall i :: 0 <= i < |cs| && Counted(cs[i]) ==> OrderValue(cs[i]).value <= r
    ensures r == 0 || exists i :: 0 <= i < |cs| && Counted(cs[i]) && OrderValue(cs[i]).value == r
  {
    if cs == [] then 0
    else
      var rest := MaxOrder(cs[1..]);
      assert forall i :: 1 <= i < |cs| ==> cs[i] == cs[1..][i - 1];
      if Counted(cs[0]) && OrderValue(cs[0]).value > rest then OrderValue(cs[0]).value else rest
  }

  /** The new phase's phaseOrderNumber: above every counted order, at least
      1, and at most 1000 (an existing order 999 gives the new phase the
      terminal order). */
  function NewPhaseOrder(cs: seq<Json>): (r: int)
    ensures 1 <= r <= TerminalOrder
    ensures forall i :: 0 <= i < |cs| && Counted(cs[i]) ==> OrderValue(cs[i]).value < r
    ensures r == 1 || exists i :: 0 <= i < |cs| && Counted(cs[i]) && OrderValue(cs[i]).value == r - 1
  {
    MaxOrder(cs) + 1
  }

  // ---------------------------------------------------------------------
  // Insertion position

  /** `findIndex` of the first terminal phase, or -1. */
  function TerminalIndex(cs: seq<Json>): (r: int)
    ensures -1 <= r < |cs|
    ensures r >= 0 ==> IsTerminal(cs[r])
    ensures forall i :: 0 <= i < |cs| && (r < 0 || i < r) ==> !IsTerminal(cs[i])
  {
    if cs == [] then -1
    else if IsTerminal(cs[0]) then 0
    else
      var t := TerminalIndex(cs[1..]);
      assert forall i :: 1 <= i < |cs| ==> cs[i] == cs[1..][i - 1];
      if t < 0 then -1 else t + 1
  }

  /** The position `splice(start, 0, x)` inserts at: a negative start
      counts from the end (and stops at 0), a large one stops at the end. */
  function SpliceStart(len: nat, start: int): (k: nat)
    ensures k <= len
    ensures 0 <= start <= len ==> k == start
    ensures start < 0 ==> k == if len + start < 0 then 0 else len + start
  {
    if start < 0 then (if len + start < 0 then 0 else len + start)
    else if start > len then len
    else start
  }

  /** `cs.splice(start, 0, x)`: x lands at SpliceStart, the elements
      before it stay put and the ones from there on move up by one. */
  function Insert(cs: seq<Json>, start: int, x: Json): (r: seq<Json>)
    ensures var k := SpliceStart(|cs|, start);
      && |r| == |cs| + 1
      && r[k] == x
      && (forall i :: 0 <= i < k ==> r[i] == cs[i])
      && (forall i :: k < i < |r| ==> r[i] == cs[i - 1])
  {
    var k := SpliceStart(|cs|, start);
    cs[..k] + [x] + cs[k..]
  }

  /** Where the new phase lands: right before the first terminal phase;
      when there is none, before the last child (splice(-1, ...)), or
      alone in an empty list. Every other child keeps its contents and
      order. */
  lemma InsertedBeforeTerminal(cs: seq<Json>, x: Json)
    ensures var t := TerminalIndex(cs);
      && (t >= 0 ==> Insert(cs, t, x) == cs[..t] + [x] + cs[t..] && IsTerminal(Insert(cs, t, x)[t + 1]))
      && (t < 0 && cs != [] ==> Insert(cs, t, x) == cs[..|cs| - 1] + [x] + [cs[|cs| - 1]])
      && (cs == [] ==> Insert(cs, t, x) == [x])
  {
    var t := TerminalIndex(cs);
    if t >= 0 {
      assert SpliceStart(|cs|, t) == t;
      assert Insert(cs, t, x)[t + 1] == cs[t];
    } else if cs != [] {
      assert SpliceStart(|cs|, t) == |cs| - 1;
      assert cs[|cs| - 1..] == [cs[|cs| - 1]];
    } else {
      assert SpliceStart(0, t) == 0;
    }
  }

  /** An operation holding one phase of order 1 and the terminal phase
      gets the new phase as its middle child, with order 2. */
  lemma {:induction false} BetweenPhaseAndTerminal(a: Json, review: Json, x: Json)
    requires IsPhase(a) && Get(a, KeyPhaseOrderNumber) == Some(Num(1))
    requires IsTerminal(review)
    ensures NewPhaseOrder([a, review]) == 2
    ensures Insert([a, review], TerminalIndex([a, review]), x) == [a, x, review]
  {
    assert Counted(a) && !Counted(review);
    assert MaxOrder([review]) == 0 by {
      assert [review][1..] == [];
    }
    assert [a, review][1..] == [review];
    assert !IsTerminal(a);
    assert TerminalIndex([a, review]) == 1 by {
      assert TerminalIndex([review]) == 0;
    }
  }

  /** The splice adds exactly the new element. */
  lemma InsertAdds(cs: seq<Json>, start: int, x: Json)
    ensures multiset(Insert(cs, start, x)) == multiset(cs) + multiset{x}
  {
    var k := SpliceStart(|cs|, start);
    assert cs == cs[..k] + cs[k..];
  }

  // ---------------------------------------------------------------------
  // Locating the operation

  /** `v[0]` for an array value; anything else gives undefined (or a
      character of a string, which has no `children` either). */
  function First(v: Option<Json>): Option<Json>
  {
    match v
    case Some(Arr(xs)) => if xs == [] then None else Some(xs[0])
    case _ => None
  }

  /** `templateData.children[0]`. */
  function Unit(doc: Json): Option<Json>
  {
    First(Get(doc, KeyChildren))
  }

  /** `templateData.children[0].children[0]`. */
  function Operation(doc: Json): Option<Json>
  {
    if Unit(doc).None? then None else First(Get(Unit(doc).value, KeyChildren))
  }

  /** `operation.children`, when it is an array that `findIndex` and
      `filter` can walk without meeting a null (`null.level` throws). */
  function Children(doc: Json): (r: Option<seq<Json>>)
    ensures r.Some? ==> Null !in r.value
  {
    if Operation(doc).None? then None
    else match Get(Operation(doc).value, KeyChildren)
      case Some(Arr(xs)) => if Null in xs then None else Some(xs)
      case _ => None
  }

  /** The document with `operation.children` replaced: the update the
      splice makes in place, seen from the root. */
  function Rebuild(doc: Json, kids: seq<Json>): (r: Json)
    requires Children(doc).Some?
    ensures Operation(r).Some? && Get(Operation(r).value, KeyChildren) == Some(Arr(kids))
    ensures forall key :: key != KeyChildren ==> Get(r, key) == Get(doc, key)
    ensures forall key :: key != KeyChildren ==> Get(Unit(r).value, key) == Get(Unit(doc).value, key)
    ensures forall key :: key != KeyChildren ==> Get(Operation(r).value, key) == Get(Operation(doc).value, key)
    ensures Get(r, KeyChildren).value.items[1..] == Get(doc, KeyChildren).value.items[1..]
    ensures Get(Unit(r).value, KeyChildren).value.items[1..] == Get(Unit(doc).value, KeyChildren).value.items[1..]
  {
    var units := Get(doc, KeyChildren).value.items;
    var up := units[0];
    var ops := Get(up, KeyChildren).value.items;
    var op := ops[0];
    var op' := Obj(Assign(op.fields, KeyChildren, Arr(kids)));
    var up' := Obj(Assign(up.fields, KeyChildren, Arr(ops[0 := op'])));
    Obj(Assign(doc.fields, KeyChildren, Arr(units[0 := up'])))
  }

  // ---------------------------------------------------------------------
  // What an update does to the ids and tokens of a document

  lemma ItemIdsUpdate(items: seq<Json>, k: nat, v: Json)
    requires k < |items|
    ensures multiset(ItemIds(items[k := v])) + multiset(Ids(items[k])) ==
      multiset(ItemIds(items)) + multiset(Ids(v))
  {
    var a, b := items[..k], items[k + 1..];
    assert items == a + ([items[k]] + b);
    assert items[k := v] == a + ([v] + b);
    ItemIdsConcat(a, [items[k]] + b);
    ItemIdsConcat(a, [v] + b);
    assert ItemIds([items[k]] + b) == Ids(items[k]) + ItemIds(b) by {
      assert ([items[k]] + b)[1..] == b;
    }
    assert ItemIds([v] + b) == Ids(v) + ItemIds(b) by {
      assert ([v] + b)[1..] == b;
    }
  }

  lemma FieldIdsUpdate(fs: seq<Field>, k: nat, f: Field)
    requires k < |fs|
    ensures multiset(FieldIds(fs[k := f])) + multiset(Ids(fs[k].val)) ==
      multiset(FieldIds(fs)) + multiset(Ids(f.val))
  {
    var a, b := fs[..k], fs[k + 1..];
    assert fs == a + ([fs[k]] + b);
    assert fs[k := f] == a + ([f] + b);
    FieldIdsConcat(a, [fs[k]] + b);
    FieldIdsConcat(a, [f] + b);
    assert FieldIds([fs[k]] + b) == Ids(fs[k].val) + FieldIds(b) by {
      assert ([fs[k]] + b)[1..] == b;
    }
    assert FieldIds([f] + b) == Ids(f.val) + FieldIds(b) by {
      assert ([f] + b)[1..] == b;
    }
  }

  lemma AssignIsUpdate(fs: seq<Field>, key: string, v: Json)
    requires Lookup(fs, key).Some?
    ensures KeyIndex(fs, key) < |fs|
    ensures Assign(fs, key, v) == fs[KeyIndex(fs, key) := Field(key, v)]
    ensures Lookup(fs, key).value == fs[KeyIndex(fs, key)].val
  {
  }

  /** Assigning a key other than "id" of an object swaps the ids of the old
      value for those of the new one. */
  lemma AssignIds(fs: seq<Field>, key: string, v: Json)
    requires key != "id" && Lookup(fs, key).Some?
    ensures multiset(Ids(Obj(Assign(fs, key, v)))) + multiset(Ids(Lookup(fs, key).value)) ==
      multiset(Ids(Obj(fs))) + multiset(Ids(v))
  {
    AssignIsUpdate(fs, key, v);
    FieldIdsUpdate(fs, KeyIndex(fs, key), Field(key, v));
    assert Lookup(Assign(fs, key, v), "id") == Lookup(fs, "id");
    SameOwnId(Obj(fs), Obj(Assign(fs, key, v)), Ids(Lookup(fs, key).value), Ids(v));
  }

  lemma SameOwnId(a: Json, b: Json, x: seq<int>, y: seq<int>)
    requires a.Obj? && b.Obj? && OwnId(a) == OwnId(b)
    requires multiset(FieldIds(b.fields)) + multiset(x) == multiset(FieldIds(a.fields)) + multiset(y)
    ensures multiset(Ids(b)) + multiset(x) == multiset(Ids(a)) + multiset(y)
  {
    var own := if OwnId(a).Some? then [OwnId(a).value] else [];
    calc {
      multiset(Ids(b)) + multiset(x);
      multiset(own) + (multiset(FieldIds(b.fields)) + multiset(x));
      multiset(own) + (multiset(FieldIds(a.fields)) + multiset(y));
      multiset(Ids(a)) + multiset(y);
    }
  }

  lemma ItemTokensUpdate(items: seq<Json>, k: nat, v: Json)
    requires k < |items|
    ensures multiset(ItemTokens(items[k := v])) + multiset(Tokens(items[k])) ==
      multiset(ItemTokens(items)) + multiset(Tokens(v))
  {
    var a, b := items[..k], items[k + 1..];
    assert items == a + ([items[k]] + b);
    assert items[k := v] == a + ([v] + b);
    ItemTokensConcat(a, [items[k]] + b);
    ItemTokensConcat(a, [v] + b);
    assert ItemTokens([items[k]] + b) == Tokens(items[k]) + ItemTokens(b) by {
      assert ([items[k]] + b)[1..] == b;
    }
    assert ItemTokens([v] + b) == Tokens(v) + ItemTokens(b) by {
      assert ([v] + b)[1..] == b;
    }
  }

  lemma FieldTokensSwap(fs: seq<Field>, k: nat, f: Field)
    requires k < |fs| && !IsTokenKey(fs[k].key) && f.key == fs[k].key
    ensures multiset(FieldTokens(fs[k := f])) + multiset(Tokens(fs[k].val)) ==
      multiset(FieldTokens(fs)) + multiset(Tokens(f.val))
  {
    var a, b := fs[..k], fs[k + 1..];
    assert fs == a + ([fs[k]] + b);
    assert fs[k := f] == a + ([f] + b);
    FieldTokensConcat(a, [fs[k]] + b);
    FieldTokensConcat(a, [f] + b);
    assert FieldTokens([fs[k]] + b) == Tokens(fs[k].val) + FieldTokens(b) by {
      assert ([fs[k]] + b)[1..] == b;
    }
    assert FieldTokens([f] + b) == Tokens(f.val) + FieldTokens(b) by {
      assert ([f] + b)[1..] == b;
    }
  }

  /** The same for the identity tokens, when the key is not a token key. */
  lemma AssignTokensSwap(fs: seq<Field>, key: string, v: Json)
    requires !IsTokenKey(key) && Lookup(fs, key).Some?
    ensures multiset(Tokens(Obj(Assign(fs, key, v)))) + multiset(Tokens(Lookup(fs, key).value)) ==
      multiset(Tokens(Obj(fs))) + multiset(Tokens(v))
  {
    AssignIsUpdate(fs, key, v);
    FieldTokensSwap(fs, KeyIndex(fs, key), Field(key, v));
  }

  /** One level of the rebuild: the object `o` with its first child
      replaced by `c`. */
  function WithFirstChild(o: Json, c: Json): Json
    requires Unit(o).Some?
  {
    var xs := Get(o, KeyChildren).value.items;
    Obj(Assign(o.fields, KeyChildren, Arr(xs[0 := c])))
  }

  /** Two swaps in a row: trading x for y, then y back out for p against c,
      trades x for c overall. */
  lemma Swap2<T>(w: multiset<T>, x: multiset<T>, o: multiset<T>, y: multiset<T>, p: multiset<T>, c: multiset<T>)
    requires w + x == o + y && y + p == x + c
    ensures w + p == o + c
  {
    forall e ensures (w + p)[e] == (o + c)[e] {
      assert (w + x)[e] == (o + y)[e];
      assert (y + p)[e] == (x + c)[e];
    }
  }

  lemma WithFirstChildIds(o: Json, c: Json)
    requires Unit(o).Some?
    ensures multiset(Ids(WithFirstChild(o, c))) + multiset(Ids(Unit(o).value)) ==
      multiset(Ids(o)) + multiset(Ids(c))
    ensures multiset(Tokens(WithFirstChild(o, c))) + multiset(Tokens(Unit(o).value)) ==
      multiset(Tokens(o)) + multiset(Tokens(c))
  {
    var xs := Get(o, KeyChildren).value.items;
    var w := WithFirstChild(o, c);
    AssignIds(o.fields, KeyChildren, Arr(xs[0 := c]));
    ItemIdsUpdate(xs, 0, c);
    Swap2(multiset(Ids(w)), multiset(ItemIds(xs)), multiset(Ids(o)), multiset(ItemIds(xs[0 := c])),
      multiset(Ids(xs[0])), multiset(Ids(c)));
    AssignTokensSwap(o.fields, KeyChildren, Arr(xs[0 := c]));
    ItemTokensUpdate(xs, 0, c);
    Swap2(multiset(Tokens(w)), multiset(ItemTokens(xs)), multiset(Tokens(o)), multiset(ItemTokens(xs[0 := c])),
      multiset(Tokens(xs[0])), multiset(Tokens(c)));
  }

  lemma WithChildrenIds(o: Json, kids: seq<Json>)
    requires o.Obj? && Lookup(o.fields, KeyChildren).Some? && Lookup(o.fields, KeyChildren).value.Arr?
    ensures multiset(Ids(Obj(Assign(o.fields, KeyChildren, Arr(kids))))) +
      multiset(ItemIds(Lookup(o.fields, KeyChildren).value.items)) ==
      multiset(Ids(o)) + multiset(ItemIds(kids))
    ensures multiset(Tokens(Obj(Assign(o.fields, KeyChildren, Arr(kids))))) +
      multiset(ItemTokens(Lookup(o.fields, KeyChildren).value.items)) ==
      multiset(Tokens(o)) + multiset(ItemTokens(kids))
  {
    AssignIds(o.fields, KeyChildren, Arr(kids));
    AssignTokensSwap(o.fields, KeyChildren, Arr(kids));
  }

  /** Replacing the operation's children swaps their ids and tokens for
      those of the new list. */
  lemma RebuildIds(doc: Json, kids: seq<Json>)
    requires Children(doc).Some?
    ensures multiset(Ids(Rebuild(doc, kids))) + multiset(ItemIds(Children(doc).value)) ==
      multiset(Ids(doc)) + multiset(ItemIds(kids))
    ensures multiset(Tokens(Rebuild(doc, kids))) + multiset(ItemTokens(Children(doc).value)) ==
      multiset(Tokens(doc)) + multiset(ItemTokens(kids))
  {
    var up := Unit(doc).value;
    var op := Operation(doc).value;
    var old_ := Children(doc).value;
    var op' := Obj(Assign(op.fields, KeyChildren, Arr(kids)));
    var up' := WithFirstChild(up, op');
    var r := Rebuild(doc, kids);
    assert r == WithFirstChild(doc, up');
    assert Unit(up).value == op;
    WithChildrenIds(op, kids);
    WithFirstChildIds(up, op');
    WithFirstChildIds(doc, up');
    Swap2(multiset(Ids(r)), multiset(Ids(up)), multiset(Ids(doc)), multiset(Ids(up')),
      multiset(Ids(op)), multiset(Ids(op')));
    Swap2(multiset(Ids(r)), multiset(Ids(op)), multiset(Ids(doc)), multiset(Ids(op')),
      multiset(ItemIds(old_)), multiset(ItemIds(kids)));
    Swap2(multiset(Tokens(r)), multiset(Tokens(up)), multiset(Tokens(doc)), multiset(Tokens(up')),
      multiset(Tokens(op)), multiset(Tokens(op')));
    Swap2(multiset(Tokens(r)), multiset(Tokens(op)), multiset(Tokens(doc)), multiset(Tokens(op')),
      multiset(ItemTokens(old_)), multiset(ItemTokens(kids)));
  }

  /** Inserting x into a list adds x's ids and tokens to the list's. */
  lemma InsertIds(cs: seq<Json>, start: int, x: Json)
    ensures multiset(ItemIds(Insert(cs, start, x))) == multiset(ItemIds(cs)) + multiset(Ids(x))
    ensures multiset(ItemTokens(Insert(cs, start, x))) == multiset(ItemTokens(cs)) + multiset(Tokens(x))
  {
    var k := SpliceStart(|cs|, start);
    var a, b := cs[..k], cs[k..];
    assert Insert(cs, start, x) == a + ([x] + b);
    assert cs == a + b;
    InsertIdsAt(a, b, x);
    InsertTokensAt(a, b, x);
  }

  lemma InsertIdsAt(a: seq<Json>, b: seq<Json>, x: Json)
    ensures multiset(ItemIds(a + ([x] + b))) == multiset(ItemIds(a + b)) + multiset(Ids(x))
  {
    ItemIdsConcat(a, [x] + b);
    ItemIdsConcat(a, b);
    assert ([x] + b)[1..] == b;
    assert ItemIds([x] + b) == Ids(x) + ItemIds(b);
  }

  lemma InsertTokensAt(a: seq<Json>, b: seq<Json>, x: Json)
    ensures multiset(ItemTokens(a + ([x] + b))) == multiset(ItemTokens(a + b)) + multiset(Tokens(x))
  {
    ItemTokensConcat(a, [x] + b);
    ItemTokensConcat(a, b);
    assert ([x] + b)[1..] == b;
    assert ItemTokens([x] + b) == Tokens(x) + ItemTokens(b);
  }
}
