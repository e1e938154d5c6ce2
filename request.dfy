/** Request interpretation in the generate handler: the two title patterns
    `/add (?:a )?phase\s+(.+?)(?:\s+with|$)/i` and
    `/phase step called\s+(.+?)(?:\.|$)/i`, the whole-word keyword flags, and
    the trimming of the title.

    The regular expressions are written out as searches that follow
    JavaScript's backtracking order: the leftmost start position first, then
    the greedy `\s+` from its longest run downwards, then the lazy group from
    its shortest length upwards. */
module Request {
  import opened Json

  // ---------------------------------------------------------------------
  // Characters

  /** JavaScript's WhiteSpace and LineTerminator characters: the set that
      `\s` matches and that `trim` removes. */
  predicate IsJsSpace(c: char)
  {
    var u := c as int;
    (0x09 <= u <= 0x0D) || u == 0x20 || u == 0xA0 || u == 0x1680 ||
    (0x2000 <= u <= 0x200A) || u == 0x2028 || u == 0x2029 || u == 0x202F ||
    u == 0x205F || u == 0x3000 || u == 0xFEFF
  }

  /** The characters that `.` does not match. */
  predicate IsLineTerminator(c: char)
  {
    var u := c as int;
    u == 0x0A || u == 0x0D || u == 0x2028 || u == 0x2029
  }

  /** `\w`, the word characters that decide `\b`. */
  predicate IsWordChar(c: char)
  {
    ('a' <= c <= 'z') || ('A' <= c <= 'Z') || ('0' <= c <= '9') || c == '_'
  }

  /** ASCII lower-casing: under the `i` flag an ASCII letter of a pattern
      matches exactly its two ASCII cases. */
  function Lower(c: char): char
  {
    if 'A' <= c <= 'Z' then (c as int + 32) as char else c
  }

  /** `lit` (written in lower case) occurs at position i of s, ignoring case. */
  predicate MatchesAt(s: string, i: int, lit: string)
  {
    0 <= i && i + |lit| <= |s| && forall k :: 0 <= k < |lit| ==> Lower(s[i + k]) == lit[k]
  }

  predicate AllSpace(s: string, a: int, b: int)
  {
    0 <= a <= b <= |s| && forall k :: a <= k < b ==> IsJsSpace(s[k])
  }

  /** Length of the run of whitespace starting at i. */
  function SpaceRun(s: string, i: nat): (n: nat)
    requires i <= |s|
    ensures AllSpace(s, i, i + n)
    ensures i + n == |s| || !IsJsSpace(s[i + n])
    decreases |s| - i
  {
    if i == |s| || !IsJsSpace(s[i]) then 0 else 1 + SpaceRun(s, i + 1)
  }

  // ---------------------------------------------------------------------
  // The two title patterns

  datatype Pattern = AddPhaseCalled | PhaseStepCalled

  /** Where `\s+` starts once the literal part of the pattern matched at p.
      For `add (?:a )?phase` the optional "a " is tried first; when it is
      present the branch without it cannot match ("phase" would have to start
      at the "a"), so the literal part matches in at most one way. */
  function PrefixEnd(pat: Pattern, s: string, p: nat): Option<nat>
  {
    match pat
    case AddPhaseCalled =>
      if MatchesAt(s, p, "add a phase") then Some(p + 11)
      else if MatchesAt(s, p, "add phase") then Some(p + 9)
      else None
    case PhaseStepCalled =>
      if MatchesAt(s, p, "phase step called") then Some(p + 17) else None
  }

  /** What must follow the group: `(?:\s+with|$)` or `(?:\.|$)`. For the
      first, `\s+` has to cover the whole whitespace run (a shorter run is
      followed by whitespace, not by "w"); TailIsRegexTail shows this. */
  predicate Tail(pat: Pattern, s: string, e: nat)
    requires e <= |s|
  {
    match pat
    case AddPhaseCalled =>
      e == |s| || (SpaceRun(s, e) >= 1 && MatchesAt(s, e + SpaceRun(s, e), "with"))
    case PhaseStepCalled =>
      e == |s| || s[e] == '.'
  }

  /** `\s+with` at e, taking k whitespace characters. */
  predicate SpacesThenWith(s: string, e: int, k: int)
  {
    1 <= k && AllSpace(s, e, e + k) && MatchesAt(s, e + k, "with")
  }

  lemma TailIsRegexTail(s: string, e: nat)
    requires e <= |s|
    ensures Tail(AddPhaseCalled, s, e) <==> e == |s| || exists k :: SpacesThenWith(s, e, k)
  {
    var run := SpaceRun(s, e);
    if e < |s| {
      if Tail(AddPhaseCalled, s, e) {
        assert SpacesThenWith(s, e, run);
      }
      if k :| SpacesThenWith(s, e, k) {
        if k < run {
          assert IsJsSpace(s[e + k]);
          assert Lower(s[e + k + 0]) == "with"[0];
        }
      }
    }
  }

  /** `(.+?)` may span s[g..e]: at least one character, none a line terminator. */
  predicate GroupOk(s: string, g: int, e: int)
  {
    0 <= g < e <= |s| && forall k :: g <= k < e ==> !IsLineTerminator(s[k])
  }

  /** After the literal part, ending at q: `\s+` takes w characters and
      the group ends at e. */
  predicate Candidate(pat: Pattern, s: string, q: nat, w: nat, e: nat)
  {
    1 <= w && AllSpace(s, q, q + w) && GroupOk(s, q + w, e) && e <= |s| && Tail(pat, s, e)
  }

  /** The match of `pat` that starts at p with w whitespace characters for
      `\s+` and the group ending at e. */
  predicate Matches(pat: Pattern, s: string, p: nat, w: nat, e: nat)
  {
    PrefixEnd(pat, s, p).Some? && Candidate(pat, s, PrefixEnd(pat, s, p).value, w, e)
  }

  /** The order in which the regex engine tries candidates: leftmost start,
      then more whitespace for the greedy `\s+`, then a shorter lazy group. */
  predicate TriedBefore(p': nat, w': nat, e': nat, p: nat, w: nat, e: nat)
  {
    p' < p || (p' == p && (w' > w || (w' == w && e' < e)))
  }

  datatype Found = Found(p: nat, w: nat, e: nat)

  /** The lazy group: the first end e' >= e at which the tail matches, as
      long as the group can still grow. */
  function SearchEnd(pat: Pattern, s: string, g: nat, e: nat): (r: Option<nat>)
    requires g < e <= |s|
    requires e == g + 1 || GroupOk(s, g, e - 1)
    ensures r.Some? ==> e <= r.value && GroupOk(s, g, r.value) && Tail(pat, s, r.value)
    ensures forall e' :: e <= e' <= |s| && (r.None? || e' < r.value) ==>
      !(GroupOk(s, g, e') && Tail(pat, s, e'))
    decreases |s| - e
  {
    if IsLineTerminator(s[e - 1]) then None
    else if Tail(pat, s, e) then Some(e)
    else if e == |s| then None
    else SearchEnd(pat, s, g, e + 1)
  }

  /** The greedy `\s+` after position q: widths w, w-1, ..., 1 in turn. */
  function SearchWidth(pat: Pattern, s: string, q: nat, w: nat): (r: Option<(nat, nat)>)
    requires AllSpace(s, q, q + w)
    ensures r.Some? ==> r.value.0 <= w && Candidate(pat, s, q, r.value.0, r.value.1)
    ensures forall w': nat, e': nat ::
      w' <= w && (r.None? || w' > r.value.0 || (w' == r.value.0 && e' < r.value.1))
      ==> !Candidate(pat, s, q, w', e')
    decreases w
  {
    if w == 0 then None
    else
      var g := q + w;
      var atW := if g < |s| then SearchEnd(pat, s, g, g + 1) else None;
      assert forall e' :: e' <= |s| && (atW.None? || e' < atW.value) ==>
        !(GroupOk(s, g, e') && Tail(pat, s, e'));
      if atW.Some? then Some((w, atW.value))
      else SearchWidth(pat, s, q, w - 1)
  }

  /** The regex search: start positions p, p+1, ... in turn. */
  function SearchFrom(pat: Pattern, s: string, p: nat): (r: Option<Found>)
    ensures r.Some? ==> p <= r.value.p && Matches(pat, s, r.value.p, r.value.w, r.value.e)
    ensures forall p', w', e' :: p <= p' && (r.None? || TriedBefore(p', w', e', r.value.p, r.value.w, r.value.e)) ==>
      !Matches(pat, s, p', w', e')
    decreases |s| + 1 - p
  {
    var here :=
      if PrefixEnd(pat, s, p).Some? && PrefixEnd(pat, s, p).value <= |s| then
        var q := PrefixEnd(pat, s, p).value;
        SearchWidth(pat, s, q, SpaceRun(s, q))
      else None;
    assert forall w': nat, e': nat :: here.None? || w' > here.value.0 || (w' == here.value.0 && e' < here.value.1) ==>
      !Matches(pat, s, p, w', e');
    if here.Some? then Some(Found(p, here.value.0, here.value.1))
    else if p >= |s| then None
    else SearchFrom(pat, s, p + 1)
  }

  /** `s.match(pattern)`: the first match in the engine's order, or None
      when the pattern matches nowhere. */
  function FirstMatch(pat: Pattern, s: string): (r: Option<Found>)
    ensures r.Some? ==> Matches(pat, s, r.value.p, r.value.w, r.value.e)
    ensures r.Some? ==> forall p', w', e' ::
      TriedBefore(p', w', e', r.value.p, r.value.w, r.value.e) ==> !Matches(pat, s, p', w', e')
    ensures r.None? ==> forall p', w', e' :: !Matches(pat, s, p', w', e')
  {
    SearchFrom(pat, s, 0)
  }

  /** The captured group of a match. */
  function Group(pat: Pattern, s: string, m: Found): string
    requires Matches(pat, s, m.p, m.w, m.e)
  {
    s[PrefixEnd(pat, s, m.p).value + m.w .. m.e]
  }

  // ---------------------------------------------------------------------
  // Trimming

  /** `s.trim()`: the text between the leading and the trailing whitespace. */
  function Trim(s: string): (r: string)
    ensures exists a, b ::
      && 0 <= a <= b <= |s| && r == s[a..b]
      && AllSpace(s, 0, a) && AllSpace(s, b, |s|)
    ensures r == [] || (!IsJsSpace(r[0]) && !IsJsSpace(r[|r| - 1]))
  {
    var a := SpaceRun(s, 0);
    var b := TrailingStart(s, a);
    s[a..b]
  }

  /** The start of the trailing whitespace of s, searched down to a. */
  function TrailingStart(s: string, a: nat): (b: nat)
    requires a <= |s|
    requires a == |s| || !IsJsSpace(s[a])
    ensures a <= b <= |s| && AllSpace(s, b, |s|)
    ensures b == a || !IsJsSpace(s[b - 1])
  {
    TrailingFrom(s, a, |s|)
  }

  function TrailingFrom(s: string, a: nat, b: nat): (r: nat)
    requires a <= b <= |s| && AllSpace(s, b, |s|)
    requires a == |s| || !IsJsSpace(s[a])
    ensures a <= r <= b && AllSpace(s, r, |s|)
    ensures r == a || !IsJsSpace(s[r - 1])
    decreases b
  {
    if b == a || !IsJsSpace(s[b - 1]) then b else TrailingFrom(s, a, b - 1)
  }

  /** `request && request.trim()` is falsy: empty or all whitespace. */
  predicate IsBlank(s: string)
  {
    forall k :: 0 <= k < |s| ==> IsJsSpace(s[k])
  }

  lemma BlankIffTrimEmpty(s: string)
    ensures IsBlank(s) <==> Trim(s) == []
  {

  }

  // ---------------------------------------------------------------------
  // Keyword flags

  /** `/\bword\b/i.test(s)` at position i, for a word that starts and ends
      with a letter. */
  predicate WordAt(s: string, i: int, word: string)
  {
    && MatchesAt(s, i, word)
    && (i == 0 || !IsWordChar(s[i - 1]))
    && (i + |word| == |s| || !IsWordChar(s[i + |word|]))
  }

  /** `/\bword\b/i.test(s)`. */
  predicate HasWord(s: string, word: string)
  {
    exists i :: 0 <= i <= |s| && WordAt(s, i, word)
  }

  /** The scan behind HasWord, from position i on. */
  function FindWord(s: string, word: string, i: nat): (r: bool)
    ensures r <==> exists k :: i <= k <= |s| && WordAt(s, k, word)
    decreases |s| + 1 - i
  {
    if i > |s| then false
    else if WordAt(s, i, word) then true
    else FindWord(s, word, i + 1)
  }

  // ---------------------------------------------------------------------
  // The interpretation of a request

  datatype Intent =
    | Blank         // nothing asked for: the template is only finalized
    | NotRecognized // neither pattern matched: likewise
    | AddPhase(title: string, hasWitness: bool, hasVerify: bool, displayOnRbe: bool, wantsGeneralText: bool)

  /** The request as the generate handler reads it: the first pattern, or
      else the second, gives the title; the flags are read from the whole
      request. There is no flag for notes. */
  function Interpret(request: string): (r: Intent)
    ensures IsBlank(request) <==> r == Blank
    ensures r == NotRecognized <==>
      && !IsBlank(request)
      && (forall p, w, e :: !Matches(AddPhaseCalled, request, p, w, e))
      && (forall p, w, e :: !Matches(PhaseStepCalled, request, p, w, e))
    ensures r.AddPhase? ==>
      && r.hasWitness == HasWord(request, "witness")
      && r.hasVerify == HasWord(request, "verify")
      && r.displayOnRbe == (HasWord(request, "display on rbe") || HasWord(request, "review by exception"))
      && r.wantsGeneralText == (HasWord(request, "general text") || HasWord(request, "phase step"))
    ensures r.AddPhase? ==>
      var m1 := FirstMatch(AddPhaseCalled, request);
      var m2 := FirstMatch(PhaseStepCalled, request);
      if m1.Some? then r.title == Trim(Group(AddPhaseCalled, request, m1.value))
      else m2.Some? && r.title == Trim(Group(PhaseStepCalled, request, m2.value))
  {
    if IsBlank(request) then Blank
    else
      var m1 := FirstMatch(AddPhaseCalled, request);
      var m2 := FirstMatch(PhaseStepCalled, request);
      if m1.None? && m2.None? then NotRecognized
      else
        var title :=
          if m1.Some? then Trim(Group(AddPhaseCalled, request, m1.value))
          else Trim(Group(PhaseStepCalled, request, m2.value));
        AddPhase(title,
          FindWord(request, "witness", 0),
          FindWord(request, "verify", 0),
          FindWord(request, "display on rbe", 0) || FindWord(request, "review by exception", 0),
          FindWord(request, "general text", 0) || FindWord(request, "phase step", 0))
  }

  // ---------------------------------------------------------------------
  // The leading "called" stays in the title

  /** The engine's order is total: of two different candidates, one is
      tried before the other. */
  lemma TriedBeforeTotal(a: Found, b: Found)
    requires a != b
    ensures TriedBefore(a.p, a.w, a.e, b.p, b.w, b.e) || TriedBefore(b.p, b.w, b.e, a.p, a.w, a.e)
  {
  }

  /** A match that no earlier candidate beats is the first match. */
  lemma FirstMatchIs(pat: Pattern, s: string, m: Found)
    requires Matches(pat, s, m.p, m.w, m.e)
    requires forall p', w', e' :: TriedBefore(p', w', e', m.p, m.w, m.e) ==> !Matches(pat, s, p', w', e')
    ensures FirstMatch(pat, s) == Some(m)
  {
    var r := FirstMatch(pat, s);
    if r.Some? && r.value != m {
      TriedBeforeTotal(r.value, m);
    }
  }

  const CalledExample: string := "add a phase called QC with witness"

  /** The first pattern matches at 0, with one space for `\s+` and the
      group ending before " with". */
  lemma CalledExampleMatch()
    ensures FirstMatch(AddPhaseCalled, CalledExample) == Some(Found(0, 1, 21))
  {
    CalledExampleMatches();
    forall p', w', e' | TriedBefore(p', w', e', 0, 1, 21)
      ensures !Matches(AddPhaseCalled, CalledExample, p', w', e')
    {
      CalledExampleEarlier(w', e');
    }
    FirstMatchIs(AddPhaseCalled, CalledExample, Found(0, 1, 21));
  }

  lemma CalledExampleMatches()
    ensures Matches(AddPhaseCalled, CalledExample, 0, 1, 21)
  {
    var s := CalledExample;
    CalledExamplePrefix();
    assert AllSpace(s, 11, 12);
    CalledExampleGroup();
    CalledExampleTail();
  }

  /** "called QC" holds no line terminator. */
  lemma CalledExampleGroup()
    ensures GroupOk(CalledExample, 12, 21)
  {
    forall k | 12 <= k < 21 ensures !IsLineTerminator(CalledExample[k]) {
      if k == 18 {
      } else {
        CalledExampleLetter(k);
      }
    }
  }

  /** " with" follows position 21. */
  lemma CalledExampleTail()
    ensures Tail(AddPhaseCalled, CalledExample, 21)
  {
    var s := CalledExample;
    assert !IsJsSpace(s[22]);
    assert SpaceRun(s, 22) == 0;
    assert SpaceRun(s, 21) == 1;
    assert MatchesAt(s, 22, "with");
  }

  /** The literal part "add a phase" matches at 0 and ends at 11. */
  lemma CalledExamplePrefix()
    ensures PrefixEnd(AddPhaseCalled, CalledExample, 0) == Some(11)
  {
    assert MatchesAt(CalledExample, 0, "add a phase");
  }

  /** The characters of "called" and "QC" are not whitespace. */
  lemma CalledExampleLetter(k: int)
    requires 12 <= k < 21 && k != 18
    ensures !IsJsSpace(CalledExample[k])
  {
    if k == 12 {} else if k == 13 {} else if k == 14 {} else if k == 15 {}
    else if k == 16 {} else if k == 17 {} else if k == 19 {} else {}
  }

  /** Inside "called QC" no end position is followed by `\s+with`. */
  lemma CalledExampleNoTail(e: nat)
    requires 12 < e < 21
    ensures !Tail(AddPhaseCalled, CalledExample, e)
  {
    var s := CalledExample;
    if e == 18 {
      CalledExampleLetter(19);
      assert SpaceRun(s, 19) == 0;
      assert SpaceRun(s, 18) == 1;
      assert Lower(s[19]) != "with"[0];
    } else {
      CalledExampleLetter(e);
      assert SpaceRun(s, e) == 0;
    }
  }

  /** No candidate the engine tries before (0, 1, 21) matches. */
  lemma CalledExampleEarlier(w: nat, e: nat)
    requires TriedBefore(0, w, e, 0, 1, 21)
    ensures !Matches(AddPhaseCalled, CalledExample, 0, w, e)
  {
    CalledExamplePrefix();
    if w > 1 {
      CalledExampleLetter(12);
      assert !AllSpace(CalledExample, 11, 11 + w);
    } else if 12 < e < 21 {
      CalledExampleNoTail(e);
    }
  }

  /** "add a phase called QC with witness" asks for a phase titled
      "called QC", with a witness: the word "called" is part of the
      captured group. */
  lemma CalledStaysInTitle()
    ensures var r := Interpret(CalledExample);
      r.AddPhase? && r.title == "called QC" && r.hasWitness
  {
    CalledExampleMatch();
    CalledExampleNotBlank();
    CalledExampleWitness();
    CalledExamplePrefix();
    assert Group(AddPhaseCalled, CalledExample, Found(0, 1, 21)) == CalledExample[12..21];
    CalledExampleTitle();
  }

  lemma CalledExampleNotBlank()
    ensures !IsBlank(CalledExample)
  {
    assert !IsJsSpace(CalledExample[0]);
  }

  lemma CalledExampleWitness()
    ensures HasWord(CalledExample, "witness")
  {
    assert WordAt(CalledExample, 27, "witness");
  }

  /** The captured text "called QC" needs no trimming. */
  lemma CalledExampleTitle()
    ensures Trim(CalledExample[12..21]) == "called QC"
  {
    var s := CalledExample;
    assert s[12..21] == [s[12], s[13], s[14], s[15], s[16], s[17], s[18], s[19], s[20]];
    assert SpaceRun("called QC", 0) == 0;
    assert TrailingStart("called QC", 0) == 9;
  }
}
