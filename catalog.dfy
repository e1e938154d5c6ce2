/** The template list: every file name ending in ".mt" becomes an entry
    whose id is the name without its first ".mt", and whose display name is
    either a fixed one or derived from the id: the first "baseline-" is
    dropped, the rest is split at '-' and '_', each piece gets an upper-case
    first letter, and the pieces are joined by single spaces. */
module Catalog {
  import opened Json

  const Extension: string := ".mt"
  const BaselinePrefix: string := "baseline-"

  datatype Entry = Entry(id: string, name: string, filename: string)

  /** The fixed display names. */
  const NameMap: map<string, string> := map[
    "baseline-simple" := "Simple Baseline Template",
    "WunderDrug-5678" := "WunderDrug Manufacturing (Realistic Example)",
    "Levera_Drug_-_Albert-Levera_Drug_-_Albert" := "Levera Drug Production (Complex Example)",
    "Equipment_Linking_to_PR-ABCD-REVISED" := "Equipment Linking Example",
    "Simple_MT-Test_Record_Creation-REVISED" := "Simple Master Template"
  ]

  // ---------------------------------------------------------------------
  // String operations

  /** `s.endsWith(suffix)`. */
  predicate EndsWith(s: string, suffix: string)
  {
    |suffix| <= |s| && s[|s| - |suffix|..] == suffix
  }

  /** `pat` occurs in `s` at position `j`. */
  predicate OccursAt(s: string, pat: string, j: int)
  {
    0 <= j && j + |pat| <= |s| && s[j..j + |pat|] == pat
  }

  /** `s.indexOf(pat)` for a non-empty pattern: the first position where
      it occurs, or -1. */
  function Find(s: string, pat: string): (k: int)
    requires pat != []
    ensures -1 <= k < |s|
    ensures k >= 0 ==> OccursAt(s, pat, k)
    ensures forall j :: 0 <= j < |s| && (k < 0 || j < k) ==> !OccursAt(s, pat, j)
  {
    if |s| < |pat| then -1
    else if s[..|pat|] == pat then 0
    else
      var r := Find(s[1..], pat);
      assert forall j :: 1 <= j < |s| ==> (OccursAt(s, pat, j) <==> OccursAt(s[1..], pat, j - 1));
      if r < 0 then -1 else r + 1
  }

  /** `s.replace(pat, rep)` with a string pattern: only the first
      occurrence is replaced. */
  function ReplaceFirst(s: string, pat: string, rep: string): string
    requires pat != []
  {
    var k := Find(s, pat);
    if k < 0 then s else s[..k] + rep + s[k + |pat|..]
  }

  predicate IsSeparator(c: char)
  {
    c == '-' || c == '_'
  }

  /** `s.split(/[-_]/)`: the pieces between separators, empty ones kept. */
  function Split(s: string): (pieces: seq<string>)
    ensures |pieces| >= 1
    ensures forall p, c :: p in pieces && c in p ==> !IsSeparator(c)
  {
    if s == [] then [""]
    else
      var rest := Split(s[1..]);
      if IsSeparator(s[0]) then [""] + rest
      else
        assert forall p :: p in rest[1..] ==> p in rest;
        [[s[0]] + rest[0]] + rest[1..]
  }

  /** `pieces.join(sep)`. */
  function Join(pieces: seq<string>, sep: char): string
    requires |pieces| >= 1
  {
    if |pieces| == 1 then pieces[0] else pieces[0] + [sep] + Join(pieces[1..], sep)
  }

  /** `c.toUpperCase()` on the ASCII letters. */
  function Upper(c: char): char
  {
    if 'a' <= c <= 'z' then (c as int - 32) as char else c
  }

  /** `w.charAt(0).toUpperCase() + w.slice(1)`. */
  function Capitalize(w: string): (r: string)
    ensures |r| == |w|
  {
    if w == [] then [] else [Upper(w[0])] + w[1..]
  }

  function CapitalizeAll(pieces: seq<string>): (r: seq<string>)
    ensures |r| == |pieces|
    ensures forall i :: 0 <= i < |pieces| ==> r[i] == Capitalize(pieces[i])
  {
    if pieces == [] then [] else [Capitalize(pieces[0])] + CapitalizeAll(pieces[1..])
  }

  // ---------------------------------------------------------------------
  // Entries

  /** The entry id: the file name without its first ".mt". */
  function Id(file: string): string
  {
    ReplaceFirst(file, Extension, "")
  }

  /** The name derived from an id that has no fixed one. */
  function DerivedName(id: string): string
  {
    Join(CapitalizeAll(Split(ReplaceFirst(id, BaselinePrefix, ""))), ' ')
  }

  /** `nameMap[id]`: the fixed name, or undefined. */
  function FixedName(id: string): Option<string>
  {
    if id in NameMap then Some(NameMap[id]) else None
  }

  /** `a || b` for a string or undefined `a`: `a` when it is truthy, that
      is, defined and not empty; `b` otherwise. */
  function OrElse(a: Option<string>, b: string): string
  {
    if a.Some? && a.value != "" then a.value else b
  }

  /** `nameMap[id] || derived`. */
  function DisplayName(id: string): string
  {
    OrElse(FixedName(id), DerivedName(id))
  }

  /** The files the list keeps, in directory order. */
  function TemplateFiles(files: seq<string>): (r: seq<string>)
    ensures forall f :: f in r <==> f in files && EndsWith(f, Extension)
    ensures |r| <= |files|
  {
    if files == [] then []
    else
      var rest := TemplateFiles(files[1..]);
      assert forall f :: f in files <==> f == files[0] || f in files[1..];
      if EndsWith(files[0], Extension) then [files[0]] + rest else rest
  }

  /** `idx` lists, in increasing order, the positions in `files` of the
      entries of `kept`, and every position of a name ending in ".mt". */
  ghost predicate Positions(files: seq<string>, kept: seq<string>, idx: seq<nat>)
  {
    && |idx| == |kept|
    && (forall k :: 0 <= k < |idx| ==> idx[k] < |files| && kept[k] == files[idx[k]])
    && (forall k, l :: 0 <= k < l < |idx| ==> idx[k] < idx[l])
    && (forall j :: 0 <= j < |files| && EndsWith(files[j], Extension) ==> j in idx)
  }

  /** The kept names are the ".mt" names in directory order: each is taken
      from a later position than the one before it, and none is skipped. */
  lemma {:induction false} TemplateFilesInOrder(files: seq<string>)
    ensures exists idx :: Positions(files, TemplateFiles(files), idx)
  {
    if files == [] {
      assert Positions(files, TemplateFiles(files), []);
    } else {
      var rest := TemplateFiles(files[1..]);
      TemplateFilesInOrder(files[1..]);
      var idx :| Positions(files[1..], rest, idx);
      if EndsWith(files[0], Extension) {
        KeptFirst(files, rest, idx);
        assert Positions(files, TemplateFiles(files), [0] + Shift(idx));
      } else {
        SkippedFirst(files, rest, idx);
        assert Positions(files, TemplateFiles(files), Shift(idx));
      }
    }
  }

  /** The positions one further on. */
  function Shift(idx: seq<nat>): (r: seq<nat>)
    ensures |r| == |idx| && forall k :: 0 <= k < |idx| ==> r[k] == idx[k] + 1
  {
    seq(|idx|, k requires 0 <= k < |idx| => idx[k] + 1)
  }

  /** A name not ending in ".mt" in front changes no kept name. */
  lemma SkippedFirst(files: seq<string>, rest: seq<string>, idx: seq<nat>)
    requires files != [] && !EndsWith(files[0], Extension)
    requires Positions(files[1..], rest, idx)
    ensures Positions(files, rest, Shift(idx))
  {
    KeptFirstPicks(files, rest, idx);
    KeptFirstCovers(files, idx);
  }

  /** A name ending in ".mt" in front is kept first. */
  lemma KeptFirst(files: seq<string>, rest: seq<string>, idx: seq<nat>)
    requires files != [] && EndsWith(files[0], Extension)
    requires Positions(files[1..], rest, idx)
    ensures Positions(files, [files[0]] + rest, [0] + Shift(idx))
  {
    var sh := Shift(idx);
    var all := [0 as nat] + sh;
    var kept := [files[0]] + rest;
    assert forall k :: 1 <= k < |all| ==> all[k] == sh[k - 1] && kept[k] == rest[k - 1];
    KeptFirstPicks(files, rest, idx);
    KeptFirstCovers(files, idx);
  }

  /** The kept names after the first name sit one position further on. */
  lemma KeptFirstPicks(files: seq<string>, rest: seq<string>, idx: seq<nat>)
    requires files != [] && Positions(files[1..], rest, idx)
    ensures forall k :: 0 <= k < |idx| ==> Shift(idx)[k] < |files| && rest[k] == files[Shift(idx)[k]]
  {
    forall k | 0 <= k < |idx| ensures Shift(idx)[k] < |files| && rest[k] == files[Shift(idx)[k]] {
      assert files[1..][idx[k]] == files[idx[k] + 1];
    }
  }

  /** Every ".mt" name after the first one is found one position further on. */
  lemma KeptFirstCovers(files: seq<string>, idx: seq<nat>)
    requires files != []
    requires forall j :: 0 <= j < |files[1..]| && EndsWith(files[1..][j], Extension) ==> j in idx
    ensures forall j :: 0 < j < |files| && EndsWith(files[j], Extension) ==> j in Shift(idx)
  {
    var sh := Shift(idx);
    forall j | 0 < j < |files| && EndsWith(files[j], Extension) ensures j in sh {
      assert files[1..][j - 1] == files[j];
      var k :| 0 <= k < |idx| && idx[k] == j - 1;
      assert sh[k] == j;
    }
  }

  /** The response of the template list. */
  function Listing(files: seq<string>): (entries: seq<Entry>)
    ensures |entries| == |TemplateFiles(files)|
    ensures forall i :: 0 <= i < |entries| ==>
      var f := TemplateFiles(files)[i];
      entries[i] == Entry(Id(f), DisplayName(Id(f)), f)
  {
    var kept := TemplateFiles(files);
    seq(|kept|, i requires 0 <= i < |kept| => Entry(Id(kept[i]), DisplayName(Id(kept[i])), kept[i]))
  }

  // ---------------------------------------------------------------------
  // What the names are

  /** Every listed entry is a kept file with its id and name, and every
      file ending in ".mt" is listed. */
  lemma ListingIsTemplateFiles(files: seq<string>)
    ensures forall e :: e in Listing(files) ==>
      e.filename in files && EndsWith(e.filename, Extension) &&
      e.id == Id(e.filename) && e.name == DisplayName(e.id)
    ensures forall f :: f in files && EndsWith(f, Extension) ==>
      Entry(Id(f), DisplayName(Id(f)), f) in Listing(files)
  {
    var kept := TemplateFiles(files);
    var entries := Listing(files);
    forall f | f in files && EndsWith(f, Extension)
      ensures Entry(Id(f), DisplayName(Id(f)), f) in entries
    {
      var i :| 0 <= i < |kept| && kept[i] == f;
      assert entries[i] == Entry(Id(f), DisplayName(Id(f)), f);
    }
    forall e | e in entries
      ensures e.filename in files && EndsWith(e.filename, Extension)
    {
      var i :| 0 <= i < |entries| && entries[i] == e;
      assert kept[i] in kept;
    }
  }

  /** A name with ".mt" only at its end has the id its stem. */
  lemma {:induction false} IdOfPlainName(stem: string)
    requires Find(stem, Extension) < 0
    ensures Id(stem + Extension) == stem
  {
    var s := stem + Extension;
    var n := |stem|;
    assert OccursAt(s, Extension, n);
    assert s[n] == '.' && Extension[1] == 'm' && Extension[2] == 't';
    forall j | 0 <= j < n ensures !OccursAt(s, Extension, j) {
      if j + 3 <= n {
        assert s[j..j + 3] == stem[j..j + 3];
        assert !OccursAt(stem, Extension, j);
      }
    }
    assert Find(s, Extension) == n;
    assert s[..n] == stem;
  }

  /** The first ".mt" goes, wherever it is: "a.mt.mt" lists as "a.mt". */
  lemma FirstExtensionRemoved()
    ensures Id("a.mt.mt") == "a.mt"
  {
    var s := "a.mt.mt";
    assert s[0] == 'a';
    assert s[..3] != Extension;
    assert s[1..][..3] == Extension;
    assert Find(s, Extension) == 1;
    assert s[..1] + s[4..] == "a.mt";
  }

  /** The word-by-word capitalization, stated character by character: a
      separator becomes a space, the character after a separator (or the
      first one, when `start`) is upper-cased, and the rest is kept. */
  function TitleCase(s: string, start: bool): (r: string)
    ensures |r| == |s|
  {
    if s == [] then []
    else if IsSeparator(s[0]) then [' '] + TitleCase(s[1..], true)
    else [if start then Upper(s[0]) else s[0]] + TitleCase(s[1..], false)
  }

  lemma {:induction false} TitleCaseAt(s: string, start: bool, i: nat)
    requires i < |s|
    ensures TitleCase(s, start)[i] ==
      if IsSeparator(s[i]) then ' '
      else if (i == 0 && start) || (i > 0 && IsSeparator(s[i - 1])) then Upper(s[i])
      else s[i]
  {
    if i > 0 {
      TitleCaseAt(s[1..], IsSeparator(s[0]), i - 1);
      assert s[1..][i - 1] == s[i];
      if i > 1 {
        assert s[1..][i - 2] == s[i - 1];
      }
    }
  }

  lemma JoinPrefix(c: char, w: string, ws: seq<string>, sep: char)
    ensures Join([[c] + w] + ws, sep) == [c] + Join([w] + ws, sep)
  {
    if ws != [] {
      assert ([[c] + w] + ws)[1..] == ws;
      assert ([w] + ws)[1..] == ws;
    }
  }

  /** Split, capitalize and join is the character-wise title case; with the
      first piece left alone when the text does not start a word. */
  lemma {:induction false} SplitJoinIsTitleCase(s: string)
    ensures Join(CapitalizeAll(Split(s)), ' ') == TitleCase(s, true)
    ensures Join([Split(s)[0]] + CapitalizeAll(Split(s)[1..]), ' ') == TitleCase(s, false)
  {
    if s != [] {
      SplitJoinIsTitleCase(s[1..]);
      if IsSeparator(s[0]) {
        SeparatorFirst(s);
      } else {
        LetterFirst(s);
      }
    }
  }

  /** A leading separator opens an empty first piece. */
  lemma SeparatorFirst(s: string)
    requires s != [] && IsSeparator(s[0])
    requires Join(CapitalizeAll(Split(s[1..])), ' ') == TitleCase(s[1..], true)
    ensures Join(CapitalizeAll(Split(s)), ' ') == TitleCase(s, true)
    ensures Join([Split(s)[0]] + CapitalizeAll(Split(s)[1..]), ' ') == TitleCase(s, false)
  {
    var rest := Split(s[1..]);
    var caps := CapitalizeAll(rest);
    assert Split(s) == [""] + rest;
    assert Split(s)[1..] == rest;
    assert CapitalizeAll(Split(s)) == [""] + caps;
    assert ([""] + caps)[1..] == caps;
  }

  /** A leading letter joins the first piece of the rest. */
  lemma LetterFirst(s: string)
    requires s != [] && !IsSeparator(s[0])
    requires Join([Split(s[1..])[0]] + CapitalizeAll(Split(s[1..])[1..]), ' ') == TitleCase(s[1..], false)
    ensures Join(CapitalizeAll(Split(s)), ' ') == TitleCase(s, true)
    ensures Join([Split(s)[0]] + CapitalizeAll(Split(s)[1..]), ' ') == TitleCase(s, false)
  {
    var rest := Split(s[1..]);
    var w := [s[0]] + rest[0];
    var caps := CapitalizeAll(rest[1..]);
    assert Split(s) == [w] + rest[1..];
    assert Split(s)[1..] == rest[1..];
    assert CapitalizeAll(Split(s)) == [[Upper(s[0])] + rest[0]] + caps;
    JoinPrefix(Upper(s[0]), rest[0], caps, ' ');
    JoinPrefix(s[0], rest[0], caps, ' ');
  }

  /** A derived name has one character per character of the id (without
      its first "baseline-"): a separator becomes a space, the first
      character and each one after a separator is upper-cased, the rest
      is kept. */
  lemma DerivedNameAt(id: string, i: nat)
    requires var base := ReplaceFirst(id, BaselinePrefix, ""); i < |base|
    ensures var base := ReplaceFirst(id, BaselinePrefix, "");
      && |DerivedName(id)| == |base|
      && DerivedName(id)[i] ==
        if IsSeparator(base[i]) then ' '
        else if i == 0 || IsSeparator(base[i - 1]) then Upper(base[i])
        else base[i]
  {
    var base := ReplaceFirst(id, BaselinePrefix, "");
    SplitJoinIsTitleCase(base);
    TitleCaseAt(base, true, i);
  }

  /** No fixed name is empty. */
  lemma FixedNamesNotEmpty()
    ensures forall id :: id in NameMap ==> NameMap[id] != ""
  {
  }

  /** The fixed name wins whenever the id has one, since no fixed name is
      falsy; every other id gets its derived name, so "baseline-simple"
      lists as "Simple Baseline Template" and not as "Simple". */
  lemma DisplayNames(id: string)
    ensures DisplayName(id) == if id in NameMap then NameMap[id] else DerivedName(id)
    ensures DisplayName("baseline-simple") == "Simple Baseline Template"
  {
    FixedNamesNotEmpty();
  }
}
