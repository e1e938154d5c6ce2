/** The numeric ids of a document and the scan for the largest one
    (findMaxId in the generate handler). */
module MaxId {
  import opened Json
  import opened Finalize

  /** The id an object carries when `o.id && typeof o.id === 'number'`:
      a non-zero number under the key "id". Arrays carry none. */
  function OwnId(j: Json): Option<int>
  {
    match Get(j, "id")
    case Some(Num(n)) => if n != 0 then Some(n) else None
    case _ => None
  }

  /** Every id the scan meets, in its visiting order: an object's own id,
      then the ids inside each of its values; an array's elements in order.
      Values under any key are visited, nested triggers and actions too. */
  function Ids(j: Json): seq<int>
    decreases j, 1
  {
    match j
    case Arr(items) => ItemIds(items)
    case Obj(fs) => (if OwnId(j).Some? then [OwnId(j).value] else []) + FieldIds(fs)
    case _ => []
  }

  function ItemIds(items: seq<Json>): seq<int>
    decreases items, 0
  {
    if items == [] then [] else Ids(items[0]) + ItemIds(items[1..])
  }

  function FieldIds(fs: seq<Field>): seq<int>
    decreases fs, 0
  {
    if fs == [] then [] else Ids(fs[0].val) + FieldIds(fs[1..])
  }

  lemma ItemIdsAppend(items: seq<Json>, x: Json)
    ensures ItemIds(items + [x]) == ItemIds(items) + Ids(x)
  {
    if items == [] {
      assert [x][1..] == [];
    } else {
      assert (items + [x])[0] == items[0] && (items + [x])[1..] == items[1..] + [x];
      ItemIdsAppend(items[1..], x);
      Associative(Ids(items[0]), ItemIds(items[1..]), Ids(x));
    }
  }

  lemma FieldIdsAppend(fs: seq<Field>, f: Field)
    ensures FieldIds(fs + [f]) == FieldIds(fs) + Ids(f.val)
  {
    if fs == [] {
      assert [f][1..] == [];
    } else {
      assert (fs + [f])[0] == fs[0] && (fs + [f])[1..] == fs[1..] + [f];
      FieldIdsAppend(fs[1..], f);
      Associative(Ids(fs[0].val), FieldIds(fs[1..]), Ids(f.val));
    }
  }

  lemma ItemIdsConcat(a: seq<Json>, b: seq<Json>)
    ensures ItemIds(a + b) == ItemIds(a) + ItemIds(b)
  {
    if a == [] {
      assert a + b == b;
    } else {
      assert (a + b)[0] == a[0] && (a + b)[1..] == a[1..] + b;
      ItemIdsConcat(a[1..], b);
      Associative(Ids(a[0]), ItemIds(a[1..]), ItemIds(b));
    }
  }

  lemma FieldIdsConcat(a: seq<Field>, b: seq<Field>)
    ensures FieldIds(a + b) == FieldIds(a) + FieldIds(b)
  {
    if a == [] {
      assert a + b == b;
    } else {
      assert (a + b)[0] == a[0] && (a + b)[1..] == a[1..] + b;
      FieldIdsConcat(a[1..], b);
      Associative(Ids(a[0].val), FieldIds(a[1..]), FieldIds(b));
    }
  }

  function Max(a: int, b: int): int
  {
    if a < b then b else a
  }

  /** The inner `traverse`: raises the running maximum `acc` to cover every
      id in `o`. The result is acc or one of those ids. */
  method Traverse(o: Json, acc: int) returns (m: int)
    ensures m >= acc
    ensures forall i :: i in Ids(o) ==> i <= m
    ensures m == acc || m in Ids(o)
    decreases o
  {
    m := acc;
    match o {
      case Arr(items) =>
        var k := 0;
        while k < |items|
          invariant 0 <= k <= |items|
          invariant m >= acc
          invariant forall i :: i in ItemIds(items[..k]) ==> i <= m
          invariant m == acc || m in ItemIds(items[..k])
        {
          m := Traverse(items[k], m);
          ItemIdsPrefix(items, k);
          k := k + 1;
        }
        assert items[..k] == items;
      case Obj(fs) =>
        var own := if OwnId(o).Some? then [OwnId(o).value] else [];
        if OwnId(o).Some? {
          m := Max(m, OwnId(o).value);
        }
        var k := 0;
        while k < |fs|
          invariant 0 <= k <= |fs|
          invariant m >= acc
          invariant forall i :: i in own + FieldIds(fs[..k]) ==> i <= m
          invariant m == acc || m in own + FieldIds(fs[..k])
        {
          m := Traverse(fs[k].val, m);
          FieldIdsPrefix(fs, k);
          Associative(own, FieldIds(fs[..k]), Ids(fs[k].val));
          k := k + 1;
        }
        assert fs[..k] == fs;
      case _ =>
    }
  }

  lemma ItemIdsPrefix(items: seq<Json>, k: nat)
    requires k < |items|
    ensures ItemIds(items[..k + 1]) == ItemIds(items[..k]) + Ids(items[k])
  {
    assert items[..k + 1] == items[..k] + [items[k]];
    ItemIdsAppend(items[..k], items[k]);
  }

  lemma FieldIdsPrefix(fs: seq<Field>, k: nat)
    requires k < |fs|
    ensures FieldIds(fs[..k + 1]) == FieldIds(fs[..k]) + Ids(fs[k].val)
  {
    assert fs[..k + 1] == fs[..k] + [fs[k]];
    FieldIdsAppend(fs[..k], fs[k]);
  }

  /** findMaxId: the largest id in the document, or 0 when there is no
      positive one. It bounds every id, so `m + 1, m + 2, ...` are all new. */
  method FindMaxId(doc: Json) returns (m: int)
    ensures m >= 0
    ensures forall i :: i in Ids(doc) ==> i <= m
    ensures m == 0 || m in Ids(doc)
  {
    m := Traverse(doc, 0);
  }

  /** Blanking the identity tokens keeps every id, when the token fields hold
      plain values (strings, as in every template). */
  lemma {:induction false} SkeletonKeepsIds(j: Json)
    requires forall t :: t in Tokens(j) ==> !t.Arr? && !t.Obj?
    ensures Ids(Skeleton(j)) == Ids(j)
    decreases j, 1
  {
    match j {
      case Arr(items) =>
        ItemsSkeletonKeepsIds(items);
      case Obj(fs) =>
        OwnIdSkeleton(j);
        FieldsSkeletonKeepsIds(fs);
      case _ =>
    }
  }

  lemma OwnIdSkeleton(j: Json)
    ensures OwnId(Skeleton(j)) == OwnId(j)
  {
    assert !IsTokenKey("id") by {
      assert |"id"| == 2;
    }
    GetSkeleton(j, "id");
    if Get(j, "id").Some? {
      SkeletonKeepsKind(Get(j, "id").value);
    }
  }

  lemma {:induction false} ItemsSkeletonKeepsIds(items: seq<Json>)
    requires forall t :: t in ItemTokens(items) ==> !t.Arr? && !t.Obj?
    ensures ItemIds(ItemSkeletons(items)) == ItemIds(items)
    decreases items, 0
  {
    if items != [] {
      SkeletonKeepsIds(items[0]);
      ItemsSkeletonKeepsIds(items[1..]);
      var sk := ItemSkeletons(items);
      assert sk[0] == Skeleton(items[0]) && sk[1..] == ItemSkeletons(items[1..]);
    }
  }

  lemma {:induction false} FieldsSkeletonKeepsIds(fs: seq<Field>)
    requires forall t :: t in FieldTokens(fs) ==> !t.Arr? && !t.Obj?
    ensures FieldIds(FieldSkeletons(fs)) == FieldIds(fs)
    decreases fs, 0
  {
    if fs != [] {
      var sk := FieldSkeletons(fs);
      assert sk[1..] == FieldSkeletons(fs[1..]);
      FieldsSkeletonKeepsIds(fs[1..]);
      if IsTokenKey(fs[0].key) {
        assert fs[0].val in FieldTokens(fs);
        assert sk[0].val == Null;
      } else {
        SkeletonKeepsIds(fs[0].val);
        assert sk[0].val == Skeleton(fs[0].val);
      }
    }
  }

  /** Regeneration never rewrites a numeric id: the regenerated document
      carries the same ids in the same order. */
  lemma RegenerateKeepsIds(j: Json, mint: nat -> string, n: nat)
    requires forall t :: t in Tokens(j) ==> !t.Arr? && !t.Obj?
    ensures Ids(Regenerate(j, mint, n).value) == Ids(j)
  {
    var r := Regenerate(j, mint, n).value;
    assert forall t :: t in Tokens(r) ==> t.Str?;
    SkeletonKeepsIds(r);
    SkeletonKeepsIds(j);
  }
}
