/** Document finalization: every identity token in the whole tree is replaced
    by a freshly minted one (regenerateUUIDs), then the root title and the
    product id receive a generation-date suffix.

    Token minting is abstract: `mint(k)` is the k-th token of the supply, and
    a counter threads through the traversal so that each replaced field takes
    the next token. */
module Finalize {
  import opened Json

  /** The two identity-token keys; every other key is left alone. */
  predicate IsTokenKey(key: string)
  {
    key == "globalSerialId" || key == "localReferenceId"
  }

  /** A value together with the next unused position of the token supply. */
  datatype Minted<T> = Minted(value: T, next: nat)

  /** The tokens `mint(n)`, ..., `mint(n + k - 1)`, as JSON strings. */
  function Fresh(mint: nat -> string, n: nat, k: nat): (r: seq<Json>)
    ensures |r| == k
    ensures forall i :: 0 <= i < k ==> r[i] == Str(mint(n + i))
  {
    seq(k, (i: nat) => Str(mint(n + i)))
  }

  lemma FreshSplit(mint: nat -> string, n: nat, a: nat, b: nat)
    ensures Fresh(mint, n, a) + Fresh(mint, n + a, b) == Fresh(mint, n, a + b)
  {
  }

  /** The values found under identity-token keys, in traversal order. A value
      under a token key is not searched further (it is replaced whole). */
  function Tokens(j: Json): seq<Json>
    decreases j, 1
  {
    match j
    case Arr(items) => ItemTokens(items)
    case Obj(fs) => FieldTokens(fs)
    case _ => []
  }

  function ItemTokens(items: seq<Json>): seq<Json>
    decreases items, 0
  {
    if items == [] then [] else Tokens(items[0]) + ItemTokens(items[1..])
  }

  function FieldTokens(fs: seq<Field>): seq<Json>
    decreases fs, 0
  {
    if fs == [] then []
    else if IsTokenKey(fs[0].key) then [fs[0].val] + FieldTokens(fs[1..])
    else Tokens(fs[0].val) + FieldTokens(fs[1..])
  }

  lemma ItemTokensConcat(a: seq<Json>, b: seq<Json>)
    ensures ItemTokens(a + b) == ItemTokens(a) + ItemTokens(b)
  {
    if a == [] {
      assert a + b == b;
    } else {
      assert (a + b)[0] == a[0] && (a + b)[1..] == a[1..] + b;
      ItemTokensConcat(a[1..], b);
      Associative(Tokens(a[0]), ItemTokens(a[1..]), ItemTokens(b));
    }
  }

  lemma FieldTokensConcat(a: seq<Field>, b: seq<Field>)
    ensures FieldTokens(a + b) == FieldTokens(a) + FieldTokens(b)
  {
    if a == [] {
      assert a + b == b;
    } else {
      var h := if IsTokenKey(a[0].key) then [a[0].val] else Tokens(a[0].val);
      assert (a + b)[0] == a[0] && (a + b)[1..] == a[1..] + b;
      assert FieldTokens(a + b) == h + FieldTokens(a[1..] + b);
      FieldTokensConcat(a[1..], b);
      Associative(h, FieldTokens(a[1..]), FieldTokens(b));
    }
  }

  /** The document with every identity-token value blanked to null: what a
      regeneration must leave untouched (keys, their order, array lengths and
      every other value, numeric ids included). */
  function Skeleton(j: Json): Json
    decreases j, 1
  {
    match j
    case Arr(items) => Arr(ItemSkeletons(items))
    case Obj(fs) => Obj(FieldSkeletons(fs))
    case _ => j
  }

  function ItemSkeletons(items: seq<Json>): (r: seq<Json>)
    ensures |r| == |items|
    decreases items, 0
  {
    if items == [] then [] else [Skeleton(items[0])] + ItemSkeletons(items[1..])
  }

  function FieldSkeletons(fs: seq<Field>): (r: seq<Field>)
    ensures |r| == |fs|
    ensures forall i :: 0 <= i < |fs| ==> r[i].key == fs[i].key
    decreases fs, 0
  {
    if fs == [] then []
    else
      var v := if IsTokenKey(fs[0].key) then Null else Skeleton(fs[0].val);
      [Field(fs[0].key, v)] + FieldSkeletons(fs[1..])
  }

  /** regenerateUUIDs: rebuild the tree, giving every `globalSerialId` and
      `localReferenceId` field, at any depth, the next token of the supply.
      Nothing else changes, and the tokens placed are exactly the next
      |Tokens(j)| tokens of the supply, in traversal order. */
  function Regenerate(j: Json, mint: nat -> string, n: nat): (r: Minted<Json>)
    ensures r.next == n + |Tokens(j)|
    ensures Tokens(r.value) == Fresh(mint, n, |Tokens(j)|)
    ensures Skeleton(r.value) == Skeleton(j)
    decreases j, 1
  {
    match j
    case Arr(items) =>
      var r := RegenerateItems(items, mint, n);
      Minted(Arr(r.value), r.next)
    case Obj(fs) =>
      var r := RegenerateFields(fs, mint, n);
      Minted(Obj(r.value), r.next)
    case _ => Minted(j, n)
  }

  function RegenerateItems(items: seq<Json>, mint: nat -> string, n: nat): (r: Minted<seq<Json>>)
    ensures r.next == n + |ItemTokens(items)|
    ensures ItemTokens(r.value) == Fresh(mint, n, |ItemTokens(items)|)
    ensures ItemSkeletons(r.value) == ItemSkeletons(items)
    decreases items, 0
  {
    if items == [] then Minted([], n)
    else
      var h := Regenerate(items[0], mint, n);
      var t := RegenerateItems(items[1..], mint, h.next);
      var out := [h.value] + t.value;
      assert out[0] == h.value && out[1..] == t.value;
      FreshSplit(mint, n, |Tokens(items[0])|, |ItemTokens(items[1..])|);
      Minted(out, t.next)
  }

  function RegenerateFields(fs: seq<Field>, mint: nat -> string, n: nat): (r: Minted<seq<Field>>)
    ensures r.next == n + |FieldTokens(fs)|
    ensures FieldTokens(r.value) == Fresh(mint, n, |FieldTokens(fs)|)
    ensures FieldSkeletons(r.value) == FieldSkeletons(fs)
    decreases fs, 0
  {
    if fs == [] then Minted([], n)
    else if IsTokenKey(fs[0].key) then
      var t := RegenerateFields(fs[1..], mint, n + 1);
      TokenFieldStep(fs, mint, n, t);
      Minted([Field(fs[0].key, Str(mint(n)))] + t.value, t.next)
    else
      var h := Regenerate(fs[0].val, mint, n);
      var t := RegenerateFields(fs[1..], mint, h.next);
      ValueFieldStep(fs, mint, n, h, t);
      Minted([Field(fs[0].key, h.value)] + t.value, t.next)
  }

  /** A token field takes the next token; the rest takes the ones after it. */
  lemma TokenFieldStep(fs: seq<Field>, mint: nat -> string, n: nat, t: Minted<seq<Field>>)
    requires fs != [] && IsTokenKey(fs[0].key)
    requires t.next == n + 1 + |FieldTokens(fs[1..])|
    requires FieldTokens(t.value) == Fresh(mint, n + 1, |FieldTokens(fs[1..])|)
    requires FieldSkeletons(t.value) == FieldSkeletons(fs[1..])
    ensures var out := [Field(fs[0].key, Str(mint(n)))] + t.value;
      && t.next == n + |FieldTokens(fs)|
      && FieldTokens(out) == Fresh(mint, n, |FieldTokens(fs)|)
      && FieldSkeletons(out) == FieldSkeletons(fs)
  {
    var out := [Field(fs[0].key, Str(mint(n)))] + t.value;
    var b := |FieldTokens(fs[1..])|;
    assert |FieldTokens(fs)| == 1 + b by {
      assert FieldTokens(fs) == [fs[0].val] + FieldTokens(fs[1..]);
    }
    assert FieldTokens(out) == Fresh(mint, n, 1) + Fresh(mint, n + 1, b) by {
      assert out[0].key == fs[0].key && out[1..] == t.value;
    }
    FreshSplit(mint, n, 1, b);
    HeadFieldSkeleton(fs, Str(mint(n)), t.value);
  }

  /** Any other field's value is regenerated first, then the rest. */
  lemma ValueFieldStep(fs: seq<Field>, mint: nat -> string, n: nat, h: Minted<Json>, t: Minted<seq<Field>>)
    requires fs != [] && !IsTokenKey(fs[0].key)
    requires h.next == n + |Tokens(fs[0].val)|
    requires Tokens(h.value) == Fresh(mint, n, |Tokens(fs[0].val)|)
    requires Skeleton(h.value) == Skeleton(fs[0].val)
    requires t.next == h.next + |FieldTokens(fs[1..])|
    requires FieldTokens(t.value) == Fresh(mint, h.next, |FieldTokens(fs[1..])|)
    requires FieldSkeletons(t.value) == FieldSkeletons(fs[1..])
    ensures var out := [Field(fs[0].key, h.value)] + t.value;
      && t.next == n + |FieldTokens(fs)|
      && FieldTokens(out) == Fresh(mint, n, |FieldTokens(fs)|)
      && FieldSkeletons(out) == FieldSkeletons(fs)
  {
    ValueFieldTokens(fs, mint, n, h, t);
    HeadFieldSkeleton(fs, h.value, t.value);
  }

  lemma ValueFieldTokens(fs: seq<Field>, mint: nat -> string, n: nat, h: Minted<Json>, t: Minted<seq<Field>>)
    requires fs != [] && !IsTokenKey(fs[0].key)
    requires h.next == n + |Tokens(fs[0].val)|
    requires Tokens(h.value) == Fresh(mint, n, |Tokens(fs[0].val)|)
    requires t.next == h.next + |FieldTokens(fs[1..])|
    requires FieldTokens(t.value) == Fresh(mint, h.next, |FieldTokens(fs[1..])|)
    ensures var out := [Field(fs[0].key, h.value)] + t.value;
      && t.next == n + |FieldTokens(fs)|
      && FieldTokens(out) == Fresh(mint, n, |FieldTokens(fs)|)
  {
    var out := [Field(fs[0].key, h.value)] + t.value;
    var a, b := |Tokens(fs[0].val)|, |FieldTokens(fs[1..])|;
    assert |FieldTokens(fs)| == a + b by {
      assert FieldTokens(fs) == Tokens(fs[0].val) + FieldTokens(fs[1..]);
    }
    calc {
      FieldTokens(out);
      { ValueFieldHead(fs[0].key, h.value, t.value); }
      Tokens(h.value) + FieldTokens(t.value);
      Fresh(mint, n, a) + Fresh(mint, n + a, b);
      { FreshSplit(mint, n, a, b); }
      Fresh(mint, n, a + b);
    }
  }

  /** A value field in front contributes its value's tokens. */
  lemma ValueFieldHead(key: string, v: Json, rest: seq<Field>)
    requires !IsTokenKey(key)
    ensures FieldTokens([Field(key, v)] + rest) == Tokens(v) + FieldTokens(rest)
  {
    var out := [Field(key, v)] + rest;
    assert out[0].key == key && out[0].val == v && out[1..] == rest;
  }

  /** Replacing the first field's value keeps the skeleton when the new
      value has the old one's skeleton, or the field is a token field. */
  lemma HeadFieldSkeleton(fs: seq<Field>, v: Json, rest: seq<Field>)
    requires fs != []
    requires !IsTokenKey(fs[0].key) ==> Skeleton(v) == Skeleton(fs[0].val)
    requires FieldSkeletons(rest) == FieldSkeletons(fs[1..])
    ensures FieldSkeletons([Field(fs[0].key, v)] + rest) == FieldSkeletons(fs)
  {
    var out := [Field(fs[0].key, v)] + rest;
    assert out[0].key == fs[0].key && out[1..] == rest;
  }

  /** An injective supply gives pairwise distinct tokens; a supply that avoids
      the document's old tokens gives none of them back. */
  lemma RegeneratedTokensFresh(j: Json, mint: nat -> string, n: nat)
    requires forall a: nat, b: nat :: a != b ==> mint(a) != mint(b)
    ensures var t := Tokens(Regenerate(j, mint, n).value);
      forall i, k :: 0 <= i < k < |t| ==> t[i] != t[k]
    ensures (forall k: nat :: n <= k ==> Str(mint(k)) !in Tokens(j)) ==>
      forall t :: t in Tokens(Regenerate(j, mint, n).value) ==> t !in Tokens(j)
  {
    var t := Tokens(Regenerate(j, mint, n).value);
    forall i, k | 0 <= i < k < |t| ensures t[i] != t[k] {
      assert t[i] == Str(mint(n + i)) && t[k] == Str(mint(n + k));
    }
    if forall k: nat :: n <= k ==> Str(mint(k)) !in Tokens(j) {
      forall x | x in t ensures x !in Tokens(j) {
        var i :| 0 <= i < |t| && t[i] == x;
        assert x == Str(mint(n + i));
      }
    }
  }

  // ---------------------------------------------------------------------
  // Lemmas relating single-field updates to tokens and skeletons

  lemma FieldSkeletonAt(fs: seq<Field>, i: nat)
    requires i < |fs|
    ensures FieldSkeletons(fs)[i] ==
      Field(fs[i].key, if IsTokenKey(fs[i].key) then Null else Skeleton(fs[i].val))
  {
    if i > 0 {
      FieldSkeletonAt(fs[1..], i - 1);
    }
  }

  lemma KeyIndexSkeleton(fs: seq<Field>, key: string)
    ensures KeyIndex(FieldSkeletons(fs), key) == KeyIndex(fs, key)
  {
    if fs != [] {
      KeyIndexSkeleton(fs[1..], key);
    }
  }

  /** Looking up an ordinary key in a skeleton gives the skeleton of the value. */
  lemma LookupSkeleton(fs: seq<Field>, key: string)
    requires !IsTokenKey(key)
    ensures Lookup(FieldSkeletons(fs), key) ==
      if Lookup(fs, key).Some? then Some(Skeleton(Lookup(fs, key).value)) else None
  {
    if fs != [] && fs[0].key != key {
      LookupSkeleton(fs[1..], key);
    }
  }

  lemma FieldTokensUpdate(fs: seq<Field>, k: nat, v: Json)
    requires k < |fs| && !IsTokenKey(fs[k].key) && Tokens(v) == Tokens(fs[k].val)
    ensures FieldTokens(fs[k := Field(fs[k].key, v)]) == FieldTokens(fs)
  {
    if k > 0 {
      FieldTokensUpdate(fs[1..], k - 1, v);
      assert fs[k := Field(fs[k].key, v)][1..] == fs[1..][k - 1 := Field(fs[k].key, v)];
    }
  }

  lemma FieldSkeletonsUpdate(fs: seq<Field>, k: nat, v: Json)
    requires k < |fs| && !IsTokenKey(fs[k].key)
    ensures FieldSkeletons(fs[k := Field(fs[k].key, v)]) ==
      FieldSkeletons(fs)[k := Field(fs[k].key, Skeleton(v))]
  {
    if k > 0 {
      FieldSkeletonsUpdate(fs[1..], k - 1, v);
      assert fs[k := Field(fs[k].key, v)][1..] == fs[1..][k - 1 := Field(fs[k].key, v)];
    }
  }

  /** Assigning an ordinary key commutes with taking skeletons. */
  lemma AssignSkeleton(fs: seq<Field>, key: string, v: Json)
    requires !IsTokenKey(key) && Lookup(fs, key).Some?
    ensures FieldSkeletons(Assign(fs, key, v)) == Assign(FieldSkeletons(fs), key, Skeleton(v))
  {
    var k := KeyIndex(fs, key);
    KeyIndexSkeleton(fs, key);
    assert k < |fs|;
    FieldSkeletonsUpdate(fs, k, v);
  }

  /** Assigning an ordinary key a value with the same tokens keeps the tokens. */
  lemma AssignTokens(fs: seq<Field>, key: string, v: Json)
    requires !IsTokenKey(key) && Lookup(fs, key).Some? && Tokens(v) == Tokens(Lookup(fs, key).value)
    ensures FieldTokens(Assign(fs, key, v)) == FieldTokens(fs)
  {
    var k := KeyIndex(fs, key);
    assert k < |fs|;
    FieldTokensUpdate(fs, k, v);
  }

  // ---------------------------------------------------------------------
  // Title and product-id suffixes

  /** ToString of a value succeeds. An object with its own "toString" key
      has no string form: that key's value is not callable, and the
      inherited `valueOf` returns the object itself, so ToString throws a
      TypeError. An array prints its elements, so it fails when one does. */
  predicate Printable(j: Json)
  {
    match j
    case Obj(fs) => Lookup(fs, "toString").None?
    case Arr(items) => forall k :: 0 <= k < |items| ==> Printable(items[k])
    case _ => true
  }

  /** ToString, as a template literal applies it, of a value that has a
      string form (`Printable`). */
  function JsString(j: Json): string
    decreases j, 1
  {
    match j
    case Null => "null"
    case Bool(b) => if b then "true" else "false"
    case Num(n) => IntToString(n)
    case Str(s) => s
    case Arr(items) => JoinedItems(items)
    case Obj(_) => "[object Object]"
  }

  /** `items.join(",")`, where null elements print as the empty string. */
  function JoinedItems(items: seq<Json>): string
    decreases items, 0
  {
    if items == [] then ""
    else
      var first := if items[0].Null? then "" else JsString(items[0]);
      if |items| == 1 then first else first + "," + JoinedItems(items[1..])
  }

  function IntToString(n: int): string
  {
    if n < 0 then "-" + NatToString(-n) else NatToString(n)
  }

  function NatToString(n: nat): (r: string)
    ensures |r| >= 1
    ensures forall i :: 0 <= i < |r| ==> '0' <= r[i] <= '9'
  {
    var digit := ['0' + ((n % 10) as char)];
    if n < 10 then digit else NatToString(n / 10) + digit
  }

  function TitleSuffix(date: string): string
  {
    " (Generated " + date + ")"
  }

  function ProductIdSuffix(date: string): string
  {
    "-GEN-" + date
  }

  /** The title assignment of the finalizer, once the title has been
      printed. */
  function WithTitle(doc: Json, date: string): (r: Json)
    ensures Truthy(Get(doc, "title")) ==>
      r.Obj? && Get(r, "title") == Some(Str(JsString(Get(doc, "title").value) + TitleSuffix(date)))
    ensures !Truthy(Get(doc, "title")) ==> r == doc
    ensures forall key :: key != "title" ==> Get(r, key) == Get(doc, key)
  {
    var t := Get(doc, "title");
    if Truthy(t) then
      Obj(Assign(doc.fields, "title", Str(JsString(t.value) + TitleSuffix(date))))
    else doc
  }

  /** The product id that the document carries, if both the details object
      and its productId are truthy. */
  function ProductId(doc: Json): Option<Json>
  {
    var d := Get(doc, "masterTemplateDetails");
    if Truthy(d) && Truthy(Get(d.value, "productId")) then Get(d.value, "productId") else None
  }

  /** The productId assignment of the finalizer, once the productId has
      been printed. */
  function WithProductId(doc: Json, date: string): (r: Json)
    ensures ProductId(doc).Some? ==>
      r.Obj? && Get(r, "masterTemplateDetails").Some? &&
      Get(Get(r, "masterTemplateDetails").value, "productId") ==
        Some(Str(JsString(ProductId(doc).value) + ProductIdSuffix(date)))
    ensures ProductId(doc).Some? ==> forall key :: key != "productId" ==>
      Get(Get(r, "masterTemplateDetails").value, key) == Get(Get(doc, "masterTemplateDetails").value, key)
    ensures ProductId(doc).None? ==> r == doc
    ensures forall key :: key != "masterTemplateDetails" ==> Get(r, key) == Get(doc, key)
  {
    var d := Get(doc, "masterTemplateDetails");
    if Truthy(d) && Truthy(Get(d.value, "productId")) then
      var p := Get(d.value, "productId").value;
      var details := Obj(Assign(d.value.fields, "productId", Str(JsString(p) + ProductIdSuffix(date))));
      Obj(Assign(doc.fields, "masterTemplateDetails", details))
    else doc
  }

  /** The title is truthy but has no string form. */
  predicate TitleThrows(doc: Json)
  {
    Truthy(Get(doc, "title")) && !Printable(Get(doc, "title").value)
  }

  /** The product id is there but has no string form. */
  predicate ProductIdThrows(doc: Json)
  {
    ProductId(doc).Some? && !Printable(ProductId(doc).value)
  }

  /** `if (doc.title) doc.title = `${doc.title} (Generated D)``; None is the
      TypeError of a title without a string form. */
  function StampTitle(doc: Json, date: string): (r: Option<Json>)
    ensures r.None? <==> TitleThrows(doc)
    ensures r.Some? && Truthy(Get(doc, "title")) ==>
      r.value.Obj? && Get(r.value, "title") == Some(Str(JsString(Get(doc, "title").value) + TitleSuffix(date)))
    ensures !Truthy(Get(doc, "title")) ==> r == Some(doc)
    ensures r.Some? ==> forall key :: key != "title" ==> Get(r.value, key) == Get(doc, key)
  {
    if TitleThrows(doc) then None else Some(WithTitle(doc, date))
  }

  /** `if (d && d.productId) d.productId = `${d.productId}-GEN-D``, where d is
      `doc.masterTemplateDetails`; None is the TypeError of a productId
      without a string form. */
  function StampProductId(doc: Json, date: string): (r: Option<Json>)
    ensures r.None? <==> ProductIdThrows(doc)
    ensures r.Some? && ProductId(doc).Some? ==>
      r.value.Obj? && Get(r.value, "masterTemplateDetails").Some? &&
      Get(Get(r.value, "masterTemplateDetails").value, "productId") ==
        Some(Str(JsString(ProductId(doc).value) + ProductIdSuffix(date)))
    ensures r.Some? && ProductId(doc).Some? ==> forall key :: key != "productId" ==>
      Get(Get(r.value, "masterTemplateDetails").value, key) == Get(Get(doc, "masterTemplateDetails").value, key)
    ensures ProductId(doc).None? ==> r == Some(doc)
    ensures r.Some? ==> forall key :: key != "masterTemplateDetails" ==> Get(r.value, key) == Get(doc, key)
  {
    if ProductIdThrows(doc) then None else Some(WithProductId(doc, date))
  }

  /** The finalizer of the generate handler: regenerate every identity token,
      then stamp the title and the product id. It throws (`threw`), and the
      handler answers with a failure, when the document is null (reading its
      title) or when the title or the product id it stamps has no string
      form. Returns the next unused position of the token supply. */
  method FinalizeDocument(doc: Json, mint: nat -> string, n: nat, date: string)
    returns (out: Json, next: nat, threw: bool)
    ensures threw <==> doc.Null? || TitleThrows(doc) || ProductIdThrows(doc)
    ensures next == n + |Tokens(doc)|
    ensures !threw ==> out == WithProductId(WithTitle(Regenerate(doc, mint, n).value, date), date)
    ensures !threw && ScalarOrAbsent(Get(doc, "title")) && ScalarOrAbsent(ProductId(doc)) ==>
      && Tokens(out) == Fresh(mint, n, |Tokens(doc)|)
      && Skeleton(out) == WithProductId(WithTitle(Skeleton(doc), date), date)
  {
    var regenerated := Regenerate(doc, mint, n);
    out := regenerated.value;
    next := regenerated.next;
    RegeneratedThrows(doc, mint, n, date);
    threw := true;
    if out.Null? {
      return;
    }
    var titled := StampTitle(out, date);
    if titled.None? {
      return;
    }
    var stamped := StampProductId(titled.value, date);
    if stamped.None? {
      return;
    }
    threw := false;
    out := stamped.value;
    if ScalarOrAbsent(Get(doc, "title")) && ScalarOrAbsent(ProductId(doc)) {
      FinalizedDocument(doc, mint, n, date);
    }
  }

  /** Regeneration changes neither whether the document is null nor whether
      its title or product id can be printed. */
  lemma RegeneratedThrows(doc: Json, mint: nat -> string, n: nat, date: string)
    ensures var mid := Regenerate(doc, mint, n).value;
      && (mid.Null? <==> doc.Null?)
      && TitleThrows(mid) == TitleThrows(doc)
      && ProductIdThrows(WithTitle(mid, date)) == ProductIdThrows(doc)
  {
    var mid := Regenerate(doc, mint, n).value;
    SkeletonKeepsKind(mid);
    SkeletonKeepsKind(doc);
    PlainKeys();
    GetSkeleton(mid, "title");
    GetSkeleton(doc, "title");
    if Get(doc, "title").Some? {
      SkeletonKeepsKind(Get(mid, "title").value);
      SkeletonKeepsKind(Get(doc, "title").value);
      PrintableSkeleton(Get(mid, "title").value);
      PrintableSkeleton(Get(doc, "title").value);
    }
    WithTitleKeepsProductId(mid, date);
    ProductIdSkeleton(mid);
    ProductIdSkeleton(doc);
    if ProductId(doc).Some? {
      PrintableSkeleton(ProductId(mid).value);
      PrintableSkeleton(ProductId(doc).value);
    }
  }

  /** Blanking tokens keeps whether a value can be printed: objects print
      without looking inside, and arrays keep their elements' kinds. */
  lemma {:induction false} PrintableSkeleton(j: Json)
    ensures Printable(Skeleton(j)) == Printable(j)
    decreases j
  {
    match j
    case Obj(fs) =>
      assert |"toString"| == 8 && |"globalSerialId"| == 14 && |"localReferenceId"| == 16;
      LookupSkeleton(fs, "toString");
    case Arr(items) =>
      forall k | 0 <= k < |items| ensures Printable(ItemSkeletons(items)[k]) == Printable(items[k]) {
        ItemSkeletonAt(items, k);
        PrintableSkeleton(items[k]);
      }
    case _ =>
  }

  lemma ItemSkeletonAt(items: seq<Json>, k: nat)
    requires k < |items|
    ensures ItemSkeletons(items)[k] == Skeleton(items[k])
  {
    if k > 0 {
      ItemSkeletonAt(items[1..], k - 1);
    }
  }

  predicate ScalarOrAbsent(v: Option<Json>)
  {
    v.None? || (!v.value.Arr? && !v.value.Obj?)
  }

  lemma SkeletonKeepsKind(v: Json)
    ensures Skeleton(v).Arr? == v.Arr? && Skeleton(v).Obj? == v.Obj?
    ensures !v.Arr? && !v.Obj? ==> Skeleton(v) == v
    ensures Truthy(Some(Skeleton(v))) == Truthy(Some(v))
  {
  }

  lemma GetSkeleton(j: Json, key: string)
    requires !IsTokenKey(key)
    ensures Get(Skeleton(j), key) ==
      if Get(j, key).Some? then Some(Skeleton(Get(j, key).value)) else None
  {
    if j.Obj? {
      LookupSkeleton(j.fields, key);
    }
  }

  lemma ProductIdSkeleton(j: Json)
    ensures ProductId(Skeleton(j)) ==
      if ProductId(j).Some? then Some(Skeleton(ProductId(j).value)) else None
  {
    PlainKeys();
    GetSkeleton(j, "masterTemplateDetails");
    var d := Get(j, "masterTemplateDetails");
    if d.Some? {
      SkeletonKeepsKind(d.value);
      GetSkeleton(d.value, "productId");
      if Get(d.value, "productId").Some? {
        SkeletonKeepsKind(Get(d.value, "productId").value);
      }
    }
  }

  lemma WithTitleCommutes(x: Json, date: string)
    requires ScalarOrAbsent(Get(x, "title"))
    ensures Tokens(WithTitle(x, date)) == Tokens(x)
    ensures Skeleton(WithTitle(x, date)) == WithTitle(Skeleton(x), date)
  {
    PlainKeys();
    GetSkeleton(x, "title");
    var t := Get(x, "title");
    if t.Some? {
      SkeletonKeepsKind(t.value);
      if Truthy(t) {
        StampedTitle(x, t.value, date);
      }
    }
  }

  /** The title assignment itself, for a truthy plain title. */
  lemma StampedTitle(x: Json, t: Json, date: string)
    requires Get(x, "title") == Some(t) && !t.Arr? && !t.Obj? && Truthy(Some(t))
    ensures Tokens(WithTitle(x, date)) == Tokens(x)
    ensures Skeleton(WithTitle(x, date)) == WithTitle(Skeleton(x), date)
  {
    StampedTitleTokens(x, t, date);
    StampedTitleSkeleton(x, t, date);
  }

  lemma StampedTitleTokens(x: Json, t: Json, date: string)
    requires Get(x, "title") == Some(t) && !t.Arr? && !t.Obj? && Truthy(Some(t))
    ensures Tokens(WithTitle(x, date)) == Tokens(x)
  {
    PlainKeys();
    AssignTokens(x.fields, "title", Str(JsString(t) + TitleSuffix(date)));
  }

  lemma StampedTitleSkeleton(x: Json, t: Json, date: string)
    requires Get(x, "title") == Some(t) && !t.Arr? && !t.Obj? && Truthy(Some(t))
    ensures Skeleton(WithTitle(x, date)) == WithTitle(Skeleton(x), date)
  {
    SkeletonTitleStamp(x, t, date);
    PlainKeys();
    AssignSkeleton(x.fields, "title", Str(JsString(t) + TitleSuffix(date)));
  }

  lemma SkeletonTitleStamp(x: Json, t: Json, date: string)
    requires Get(x, "title") == Some(t) && !t.Arr? && !t.Obj? && Truthy(Some(t))
    ensures WithTitle(Skeleton(x), date) ==
      Obj(Assign(FieldSkeletons(x.fields), "title", Str(JsString(t) + TitleSuffix(date))))
  {
    PlainKeys();
    GetSkeleton(x, "title");
    SkeletonKeepsKind(t);
  }

  /** The title stamp leaves the product id alone. */
  lemma WithTitleKeepsProductId(x: Json, date: string)
    ensures ProductId(WithTitle(x, date)) == ProductId(x)
  {
    var details := "masterTemplateDetails";
    assert |details| != |"title"|;
    assert Get(WithTitle(x, date), details) == Get(x, details);
  }

  /** The keys the stamps write are ordinary ones. */
  lemma PlainKeys()
    ensures !IsTokenKey("title") && !IsTokenKey("masterTemplateDetails") && !IsTokenKey("productId")
  {
    assert |"title"| == 5 && |"masterTemplateDetails"| == 21 && |"productId"| == 9;
    assert |"globalSerialId"| == 14 && |"localReferenceId"| == 16;
  }

  lemma WithProductIdCommutes(x: Json, date: string)
    requires ScalarOrAbsent(ProductId(x))
    ensures Tokens(WithProductId(x, date)) == Tokens(x)
    ensures Skeleton(WithProductId(x, date)) == WithProductId(Skeleton(x), date)
  {
    PlainKeys();
    ProductIdSkeleton(x);
    if ProductId(x).Some? {
      var d := Get(x, "masterTemplateDetails").value;
      var p := Get(d, "productId").value;
      var v := Str(JsString(p) + ProductIdSuffix(date));
      assert x.Obj? && d.Obj?;
      assert WithProductId(x, date) ==
        Obj(Assign(x.fields, "masterTemplateDetails", Obj(Assign(d.fields, "productId", v))));
      StampedDetailsTokens(x, d, p, v);
      StampedDetailsSkeleton(x, d, p, v);
      SkeletonDetails(x, d, p);
      assert WithProductId(Skeleton(x), date) ==
        Obj(Assign(FieldSkeletons(x.fields), "masterTemplateDetails",
          Obj(Assign(FieldSkeletons(d.fields), "productId", v))));
    }
  }

  lemma SkeletonDetails(x: Json, d: Json, p: Json)
    requires Get(x, "masterTemplateDetails") == Some(d) && d.Obj?
    requires Get(d, "productId") == Some(p) && !p.Arr? && !p.Obj?
    ensures Skeleton(x) == Obj(FieldSkeletons(x.fields))
    ensures Get(Skeleton(x), "masterTemplateDetails") == Some(Obj(FieldSkeletons(d.fields)))
    ensures Get(Obj(FieldSkeletons(d.fields)), "productId") == Some(p)
  {
    PlainKeys();
    GetSkeleton(x, "masterTemplateDetails");
    GetSkeleton(d, "productId");
    SkeletonKeepsKind(p);
  }

  lemma StampedDetailsTokens(x: Json, d: Json, p: Json, v: Json)
    requires Get(x, "masterTemplateDetails") == Some(d) && d.Obj?
    requires Get(d, "productId") == Some(p) && !p.Arr? && !p.Obj? && v.Str?
    ensures Tokens(Obj(Assign(x.fields, "masterTemplateDetails", Obj(Assign(d.fields, "productId", v)))))
      == Tokens(x)
  {
    DetailsTokens(d, p, v);
    PlainKeys();
    AssignTokens(x.fields, "masterTemplateDetails", Obj(Assign(d.fields, "productId", v)));
  }

  lemma DetailsTokens(d: Json, p: Json, v: Json)
    requires Get(d, "productId") == Some(p) && !p.Arr? && !p.Obj? && v.Str?
    ensures Tokens(Obj(Assign(d.fields, "productId", v))) == Tokens(d)
  {
    PlainKeys();
    AssignTokens(d.fields, "productId", v);
  }

  lemma StampedDetailsSkeleton(x: Json, d: Json, p: Json, v: Json)
    requires Get(x, "masterTemplateDetails") == Some(d) && d.Obj?
    requires Get(d, "productId") == Some(p) && v.Str?
    ensures Skeleton(Obj(Assign(x.fields, "masterTemplateDetails", Obj(Assign(d.fields, "productId", v)))))
      == Obj(Assign(FieldSkeletons(x.fields), "masterTemplateDetails",
           Obj(Assign(FieldSkeletons(d.fields), "productId", v))))
  {
    DetailsSkeleton(d, p, v);
    PlainKeys();
    AssignSkeleton(x.fields, "masterTemplateDetails", Obj(Assign(d.fields, "productId", v)));
  }

  lemma DetailsSkeleton(d: Json, p: Json, v: Json)
    requires Get(d, "productId") == Some(p) && v.Str?
    ensures Skeleton(Obj(Assign(d.fields, "productId", v))) == Obj(Assign(FieldSkeletons(d.fields), "productId", v))
  {
    PlainKeys();
    AssignSkeleton(d.fields, "productId", v);
  }

  /** For a document whose title and product id are plain values (as in
      every template), finalization puts fresh tokens, in traversal order,
      into every token field and is otherwise the stamped original. */
  lemma {:induction false} FinalizedDocument(doc: Json, mint: nat -> string, n: nat, date: string)
    requires ScalarOrAbsent(Get(doc, "title"))
    requires ScalarOrAbsent(ProductId(doc))
    ensures var out := WithProductId(WithTitle(Regenerate(doc, mint, n).value, date), date);
      && Tokens(out) == Fresh(mint, n, |Tokens(doc)|)
      && Skeleton(out) == WithProductId(WithTitle(Skeleton(doc), date), date)
  {
    var mid := Regenerate(doc, mint, n).value;
    RegeneratedStampsPlain(doc, mint, n);
    var titled := WithTitle(mid, date);
    WithTitleKeepsProductId(mid, date);
    var out := WithProductId(titled, date);
    assert Tokens(out) == Fresh(mint, n, |Tokens(doc)|) by {
      WithTitleCommutes(mid, date);
      WithProductIdCommutes(titled, date);
    }
    assert Skeleton(out) == WithProductId(WithTitle(Skeleton(doc), date), date) by {
      WithTitleCommutes(mid, date);
      WithProductIdCommutes(titled, date);
    }
  }

  /** Regeneration leaves the title and the product id as they were, so a
      plain one stays plain. */
  lemma RegeneratedStampsPlain(doc: Json, mint: nat -> string, n: nat)
    requires ScalarOrAbsent(Get(doc, "title"))
    requires ScalarOrAbsent(ProductId(doc))
    ensures ScalarOrAbsent(Get(Regenerate(doc, mint, n).value, "title"))
    ensures ScalarOrAbsent(ProductId(Regenerate(doc, mint, n).value))
  {
    PlainKeys();
    var mid := Regenerate(doc, mint, n).value;
    GetSkeleton(mid, "title");
    GetSkeleton(doc, "title");
    if Get(mid, "title").Some? {
      SkeletonKeepsKind(Get(mid, "title").value);
      SkeletonKeepsKind(Get(doc, "title").value);
    }
    ProductIdSkeleton(mid);
    ProductIdSkeleton(doc);
    if ProductId(mid).Some? {
      SkeletonKeepsKind(ProductId(mid).value);
      SkeletonKeepsKind(ProductId(doc).value);
    }
  }
}
