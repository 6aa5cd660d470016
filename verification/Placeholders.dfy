/**
 The two placeholder patterns: the validator's `{{ identifier }}` and the renderer's
 `{{ name }}`, whose names may also hold dots and dashes. A pattern match is specified by
 where its parts lie; the scanner is proved to find exactly those matches.
 */
module Placeholders {
  import opened Wrappers
  import opened OrderedSets

  /** Identifier is the validator's name class, Dotted the renderer's. */
  datatype Syntax = Identifier | Dotted

  /** The white space class \s. */
  predicate IsSpace(c: char) {
    || '\t' <= c <= '\r' || c == ' ' || c == '\U{00A0}' || c == '\U{1680}'
    || '\U{2000}' <= c <= '\U{200A}' || c == '\U{2028}' || c == '\U{2029}'
    || c == '\U{202F}' || c == '\U{205F}' || c == '\U{3000}' || c == '\U{FEFF}'
  }

  predicate IsLetter(c: char) { 'a' <= c <= 'z' || 'A' <= c <= 'Z' || c == '_' }
  predicate IsWord(c: char) { IsLetter(c) || '0' <= c <= '9' }

  predicate Starts(g: Syntax, c: char) {
    match g
    case Identifier => IsLetter(c)
    case Dotted => IsWord(c) || c == '.' || c == '-'
  }

  predicate Continues(g: Syntax, c: char) {
    match g
    case Identifier => IsWord(c)
    case Dotted => IsWord(c) || c == '.' || c == '-'
  }

  predicate IsName(g: Syntax, name: string) {
    name != [] && Starts(g, name[0]) && forall k :: 0 < k < |name| ==> Continues(g, name[k])
  }

  /** Where the parts of a match lie: name is s[nameStart..nameEnd], `}}` is at closing. */
  datatype Match = Match(nameStart: nat, nameEnd: nat, closing: nat) {
    function End(): nat { closing + 2 }
  }

  ghost predicate Spaces(s: string, from: nat, to: nat)
    requires to <= |s|
  {
    forall k :: from <= k < to ==> IsSpace(s[k])
  }

  /** What the regular expression says about a match at i. */
  ghost predicate IsMatch(g: Syntax, s: string, i: nat, m: Match) {
    && i + 2 <= m.nameStart < m.nameEnd <= m.closing && m.End() <= |s|
    && s[i] == '{' && s[i + 1] == '{'
    && Spaces(s, i + 2, m.nameStart)
    && Starts(g, s[m.nameStart])
    && (forall k :: m.nameStart < k < m.nameEnd ==> Continues(g, s[k]))
    && Spaces(s, m.nameEnd, m.closing)
    && s[m.closing] == '}' && s[m.closing + 1] == '}'
  }

  /** Letters, digits and underscores make names; the renderer takes dots and dashes as well, and the
      validator no digit in front. White space is what \s stands for: five control characters, the
      space, and nineteen characters more. */
  lemma CharacterClasses(c: char)
    ensures Continues(Identifier, c) <==> 'a' <= c <= 'z' || 'A' <= c <= 'Z' || '0' <= c <= '9' || c == '_'
    ensures Starts(Identifier, c) <==> 'a' <= c <= 'z' || 'A' <= c <= 'Z' || c == '_'
    ensures Starts(Dotted, c) <==> Continues(Dotted, c)
    ensures Continues(Dotted, c) <==> Continues(Identifier, c) || c == '.' || c == '-'
    ensures IsSpace(c)
       <==> c in {'\t', '\n', '\U{000B}', '\U{000C}', '\r', ' ', '\U{00A0}', '\U{1680}', '\U{2000}', '\U{2001}',
                  '\U{2002}', '\U{2003}', '\U{2004}', '\U{2005}', '\U{2006}', '\U{2007}', '\U{2008}', '\U{2009}',
                  '\U{200A}', '\U{2028}', '\U{2029}', '\U{202F}', '\U{205F}', '\U{3000}', '\U{FEFF}'}
  {
  }

  /** A match is the text `{{`, white space, a name, white space, `}}`. */
  lemma MatchIsText(g: Syntax, s: string, i: nat, m: Match)
    requires i + 2 <= m.nameStart <= m.nameEnd <= m.closing && m.End() <= |s|
    ensures
      var lead, name, trail := s[i + 2..m.nameStart], s[m.nameStart..m.nameEnd], s[m.nameEnd..m.closing];
      IsMatch(g, s, i, m)
      <==> s[i..m.End()] == "{{" + lead + name + trail + "}}" && IsName(g, name)
           && (forall c :: c in lead || c in trail ==> IsSpace(c))
  {
    var lead, name, trail := s[i + 2..m.nameStart], s[m.nameStart..m.nameEnd], s[m.nameEnd..m.closing];
    var text := s[i..m.End()];
    assert s[i..i + 2] == [s[i], s[i + 1]] && s[m.closing..m.End()] == [s[m.closing], s[m.closing + 1]];
    assert text == s[i..i + 2] + lead + name + trail + s[m.closing..m.End()];
    TextParts(s[i..i + 2], lead + name + trail, s[m.closing..m.End()], text);
    assert "{{" + lead + name + trail + "}}" == "{{" + (lead + name + trail) + "}}";
    SpacesIn(s, i + 2, m.nameStart);
    SpacesIn(s, m.nameEnd, m.closing);
    NameIn(g, s, m.nameStart, m.nameEnd);
    hide Spaces, IsName, IsSpace, Starts, Continues;
  }

  lemma SpacesIn(s: string, from: nat, to: nat)
    requires from <= to <= |s|
    ensures Spaces(s, from, to) <==> forall c :: c in s[from..to] ==> IsSpace(c)
  {
    hide IsSpace;
    assert forall k :: 0 <= k < to - from ==> s[from..to][k] == s[from + k];
    assert forall k :: from <= k < to ==> s[k] == s[from..to][k - from];
  }

  lemma NameIn(g: Syntax, s: string, from: nat, to: nat)
    requires from <= to <= |s|
    ensures IsName(g, s[from..to])
       <==> from < to && Starts(g, s[from]) && forall k :: from < k < to ==> Continues(g, s[k])
  {
    hide Starts, Continues;
    assert forall k :: 0 <= k < to - from ==> s[from..to][k] == s[from + k];
    assert forall k :: from <= k < to ==> s[k] == s[from..to][k - from];
  }

  lemma TextParts(open: string, inner: string, close: string, text: string)
    requires |open| == |close| == 2 && text == open + inner + close
    ensures text == "{{" + inner + "}}" <==> open == "{{" && close == "}}"
  {
    if text == "{{" + inner + "}}" {
      assert text[..2] == open && text[..2] == "{{";
      assert text[|text| - 2..] == close && text[|text| - 2..] == "}}";
    }
  }

  function SkipSpaces(s: string, i: nat): (r: nat)
    requires i <= |s|
    ensures i <= r <= |s| && Spaces(s, i, r) && (r < |s| ==> !IsSpace(s[r]))
    decreases |s| - i
  {
    if i < |s| && IsSpace(s[i]) then SkipSpaces(s, i + 1) else i
  }

  function SkipName(g: Syntax, s: string, i: nat): (r: nat)
    requires i <= |s|
    ensures i <= r <= |s| && (forall k :: i <= k < r ==> Continues(g, s[k])) && (r < |s| ==> !Continues(g, s[r]))
    decreases |s| - i
  {
    if i < |s| && Continues(g, s[i]) then SkipName(g, s, i + 1) else i
  }

  /** The match at position i, read greedily from left to right. */
  function MatchAt(g: Syntax, s: string, i: nat): (m: Option<Match>)
    ensures m.Some? ==> i < m.value.nameStart < m.value.nameEnd <= m.value.closing && m.value.End() <= |s|
  {
    if i + 2 > |s| || s[i] != '{' || s[i + 1] != '{' then None
    else
      var nameStart := SkipSpaces(s, i + 2);
      if nameStart == |s| || !Starts(g, s[nameStart]) then None
      else
        var nameEnd := SkipName(g, s, nameStart + 1);
        var closing := SkipSpaces(s, nameEnd);
        if closing + 2 <= |s| && s[closing] == '}' && s[closing + 1] == '}' then
          Some(Match(nameStart, nameEnd, closing))
        else None
  }

  /** Greedy reading finds a match exactly when there is one, and it is the only one. */
  lemma MatchAtExact(g: Syntax, s: string, i: nat, m: Match)
    ensures MatchAt(g, s, i) == Some(m) <==> IsMatch(g, s, i, m)
  {
    if IsMatch(g, s, i, m) {
      var a := SkipSpaces(s, i + 2);
      assert a == m.nameStart;
      var b := SkipName(g, s, a + 1);
      assert !Continues(g, s[m.nameEnd]);
      assert b == m.nameEnd;
    }
  }

  lemma MatchAtSound(g: Syntax, s: string, i: nat)
    ensures MatchAt(g, s, i).Some? ==> IsMatch(g, s, i, MatchAt(g, s, i).value)
  {
    if MatchAt(g, s, i).Some? {
      MatchAtExact(g, s, i, MatchAt(g, s, i).value);
    }
  }

  /** No match of either pattern starts inside a match of either pattern. */
  lemma MatchesNeverOverlap(g: Syntax, g': Syntax, s: string, i: nat, j: nat, m: Match)
    requires IsMatch(g, s, i, m) && i < j < m.End()
    ensures MatchAt(g', s, j) == None
  {
    if s[j] == '{' {
      assert j == i + 1;
      assert s[i + 2] != '{';
    }
  }

  // ---- scanning ----

  datatype Found = Found(start: nat, m: Match)

  /** re.exec from lastIndex i: the leftmost match at or after i. */
  function NextMatch(g: Syntax, s: string, i: nat): (f: Option<Found>)
    ensures f.Some? ==> i <= f.value.start < |s| && MatchAt(g, s, f.value.start) == Some(f.value.m)
    ensures f.Some? ==> f.value.start < f.value.m.End() <= |s|
    ensures forall k :: i <= k < (if f.Some? then f.value.start else |s|) ==> MatchAt(g, s, k) == None
    decreases |s| - i
  {
    if i >= |s| then None
    else if MatchAt(g, s, i).Some? then Some(Found(i, MatchAt(g, s, i).value))
    else NextMatch(g, s, i + 1)
  }

  function NameOf(s: string, m: Match): string
    requires m.nameStart <= m.nameEnd <= |s|
  {
    s[m.nameStart..m.nameEnd]
  }

  /** The names a global scan reports: after each match it resumes at the match's end. */
  function ScanNames(g: Syntax, s: string, i: nat): seq<string>
    decreases |s| - i
  {
    var f := NextMatch(g, s, i);
    if f.None? then [] else [NameOf(s, f.value.m)] + ScanNames(g, s, f.value.m.End())
  }

  /** The reference: the name of the match at every position, skipping none. */
  function AllNames(g: Syntax, s: string, i: nat): seq<string>
    decreases |s| - i
  {
    if i >= |s| then []
    else
      (if MatchAt(g, s, i).Some? then [NameOf(s, MatchAt(g, s, i).value)] else []) + AllNames(g, s, i + 1)
  }

  lemma AllNamesStep(g: Syntax, s: string, i: nat)
    ensures i >= |s| ==> AllNames(g, s, i) == []
    ensures i < |s| ==>
              AllNames(g, s, i)
              == (if MatchAt(g, s, i).Some? then [NameOf(s, MatchAt(g, s, i).value)] else []) + AllNames(g, s, i + 1)
  {
  }

  lemma {:induction false} AllNamesSkips(g: Syntax, s: string, i: nat, j: nat)
    requires i <= j <= |s| && forall k :: i <= k < j ==> MatchAt(g, s, k) == None
    ensures AllNames(g, s, i) == AllNames(g, s, j)
    decreases j - i
  {
    if i < j {
      AllNamesSkips(g, s, i + 1, j);
    }
  }

  lemma MatchIsSkipped(g: Syntax, s: string, j: nat, m: Match)
    requires j < |s| && MatchAt(g, s, j) == Some(m)
    ensures j < m.End() <= |s|
    ensures AllNames(g, s, j + 1) == AllNames(g, s, m.End())
  {
    hide MatchAt;
    MatchAtExact(g, s, j, m);
    forall k | j + 1 <= k < m.End() ensures MatchAt(g, s, k) == None {
      MatchesNeverOverlap(g, g, s, j, k, m);
    }
    AllNamesSkips(g, s, j + 1, m.End());
  }

  /** Resuming at the end of each match misses nothing: the scan reports every match there is. */
  lemma {:induction false} ScanFindsEveryMatch(g: Syntax, s: string, i: nat)
    requires i <= |s|
    ensures ScanNames(g, s, i) == AllNames(g, s, i)
    decreases |s| - i
  {
    hide MatchAt, NameOf, AllNames, ScanNames;
    var f := NextMatch(g, s, i);
    ScanStep(g, s, i);
    if f.None? {
      AllNamesSkips(g, s, i, |s|);
      AllNamesStep(g, s, |s|);
    } else {
      var j, m := f.value.start, f.value.m;
      AllNamesSkips(g, s, i, j);
      AllNamesStep(g, s, j);
      MatchIsSkipped(g, s, j, m);
      ScanFindsEveryMatch(g, s, m.End());
    }
  }

  lemma ScanStep(g: Syntax, s: string, i: nat)
    ensures
      var f := NextMatch(g, s, i);
      ScanNames(g, s, i) == if f.None? then [] else [NameOf(s, f.value.m)] + ScanNames(g, s, f.value.m.End())
  {
  }

  /** The names used by a prompt body. */
  function Names(body: string): seq<string> {
    Distinct(AllNames(Identifier, body, 0))
  }

  /** extractVariableNames. */
  method ExtractVariableNames(body: string) returns (names: seq<string>)
    ensures names == Names(body)
  {
    hide NextMatch, Distinct, AllNames, ScanNames, MatchAt;
    names := [];
    DistinctAppend([], "");
    var lastIndex := 0;
    ghost var seen := [];
    ScanFindsEveryMatch(Identifier, body, 0);
    var m := NextMatch(Identifier, body, lastIndex);
    while m.Some?
      invariant lastIndex <= |body| && m == NextMatch(Identifier, body, lastIndex)
      invariant seen + ScanNames(Identifier, body, lastIndex) == AllNames(Identifier, body, 0)
      invariant names == Distinct(seen)
      decreases |body| - lastIndex
    {
      ScanStep(Identifier, body, lastIndex);
      var name := NameOf(body, m.value.m);
      if name !in names {
        names := names + [name];
      }
      DistinctAppend(seen, name);
      assert seen + ScanNames(Identifier, body, lastIndex)
          == seen + [name] + ScanNames(Identifier, body, m.value.m.End());
      seen := seen + [name];
      lastIndex := m.value.m.End();
      m := NextMatch(Identifier, body, lastIndex);
    }
    ScanStep(Identifier, body, lastIndex);
    assert seen + [] == seen;
  }

  lemma {:induction false} AllNamesAreNames(g: Syntax, s: string, i: nat)
    ensures forall x :: x in AllNames(g, s, i) ==> IsName(g, x)
    decreases |s| - i
  {
    if i < |s| {
      AllNamesAreNames(g, s, i + 1);
      MatchAtSound(g, s, i);
    }
  }

  // ---- validator against renderer ----

  function IdentifiersOnly(names: seq<string>): seq<string> {
    if names == [] then []
    else (if IsName(Identifier, names[0]) then [names[0]] else []) + IdentifiersOnly(names[1..])
  }

  lemma SyntaxesAgree(s: string, i: nat, m: Match)
    ensures IsMatch(Identifier, s, i, m) <==> IsMatch(Dotted, s, i, m) && IsName(Identifier, NameOf(s, m))
  {
    if m.nameStart < m.nameEnd <= |s| {
      var name := NameOf(s, m);
      assert name[0] == s[m.nameStart];
      assert forall k :: m.nameStart < k < m.nameEnd ==> s[k] == name[k - m.nameStart];
    }
  }

  /** At each position the validator sees the renderer's match exactly when its name is an identifier. */
  lemma ValidatorMatch(s: string, i: nat)
    ensures MatchAt(Identifier, s, i)
         == match MatchAt(Dotted, s, i)
            case None => None
            case Some(m) => if IsName(Identifier, NameOf(s, m)) then Some(m) else None
  {
    hide MatchAt, IsMatch, IsName;
    MatchAtSound(Dotted, s, i);
    MatchAtSound(Identifier, s, i);
    if MatchAt(Identifier, s, i).Some? {
      var m := MatchAt(Identifier, s, i).value;
      SyntaxesAgree(s, i, m);
      MatchAtExact(Dotted, s, i, m);
    }
    if MatchAt(Dotted, s, i).Some? {
      var m := MatchAt(Dotted, s, i).value;
      SyntaxesAgree(s, i, m);
      MatchAtExact(Identifier, s, i, m);
    }
  }

  /** Every name the validator's scan finds is one the renderer matches, in the same order; what
      the renderer matches besides are exactly the names that are not identifiers. */
  lemma {:induction false} ValidatorSeesTheIdentifiers(s: string, i: nat)
    ensures AllNames(Identifier, s, i) == IdentifiersOnly(AllNames(Dotted, s, i))
    decreases |s| - i
  {
    hide MatchAt;
    if i < |s| {
      ValidatorSeesTheIdentifiers(s, i + 1);
      ValidatorMatch(s, i);
      MatchAtSound(Dotted, s, i);
      var rest := AllNames(Dotted, s, i + 1);
      if MatchAt(Dotted, s, i).Some? {
        var name := NameOf(s, MatchAt(Dotted, s, i).value);
        assert ([name] + rest)[1..] == rest;
      } else {
        assert [] + rest == rest;
      }
    }
  }

  // ---- concatenation ----

  /** Text that no match can cross into from the left: white space, then a character that can
      neither start an identifier nor close the braces. */
  ghost predicate Seam(p: string) {
    exists k :: 0 < k < |p| && Spaces(p, 0, k) && !IsSpace(p[k]) && !Starts(Identifier, p[k]) && p[k] != '}'
  }

  /** A match cannot run over a character that follows white space and fits none of its parts. */
  lemma MatchEndsBefore(s: string, i: nat, m: Match, x: nat)
    requires IsMatch(Identifier, s, i, m) && i + 2 <= x < |s| && IsSpace(s[x - 1])
    requires !IsSpace(s[x]) && !Starts(Identifier, s[x]) && s[x] != '}'
    ensures m.End() <= x
  {
    assert forall k :: m.nameStart <= k < m.nameEnd ==> !IsSpace(s[k]);
  }

  lemma NoMatchCrosses(body: string, p: string, i: nat, m: Match)
    requires Seam(p) && i < |body| && IsMatch(Identifier, body + p, i, m)
    ensures m.End() <= |body|
  {
    var s := body + p;
    var k :| 0 < k < |p| && Spaces(p, 0, k) && !IsSpace(p[k]) && !Starts(Identifier, p[k]) && p[k] != '}';
    assert forall j :: 0 <= j < |p| ==> s[|body| + j] == p[j];
    MatchEndsBefore(s, i, m, |body| + k);
    assert forall j :: |body| <= j < |body| + k ==> s[j] == p[j - |body|] && IsSpace(s[j]);
  }

  lemma MatchWithin(body: string, p: string, i: nat, m: Match)
    requires m.End() <= |body|
    ensures IsMatch(Identifier, body + p, i, m) <==> IsMatch(Identifier, body, i, m)
  {
    var s := body + p;
    assert s[..|body|] == body;
    assert forall k :: 0 <= k < |body| ==> s[k] == s[..|body|][k];
  }

  lemma MatchStaysLeft(body: string, p: string, i: nat, m: Match)
    requires Seam(p) && i < |body|
    ensures IsMatch(Identifier, body + p, i, m) <==> IsMatch(Identifier, body, i, m)
  {
    if IsMatch(Identifier, body + p, i, m) {
      NoMatchCrosses(body, p, i, m);
    }
    if m.End() <= |body| {
      MatchWithin(body, p, i, m);
    }
  }

  lemma {:induction false} AllNamesRight(body: string, p: string, j: nat)
    requires j <= |p|
    ensures AllNames(Identifier, body + p, |body| + j) == AllNames(Identifier, p, j)
    decreases |p| - j
  {
    hide MatchAt;
    if j < |p| {
      AllNamesRight(body, p, j + 1);
      MatchShifts(body, p, j);
    }
  }

  lemma MatchShifts(body: string, p: string, j: nat)
    ensures MatchAt(Identifier, body + p, |body| + j)
         == match MatchAt(Identifier, p, j)
            case None => None
            case Some(m) => Some(Match(|body| + m.nameStart, |body| + m.nameEnd, |body| + m.closing))
    ensures MatchAt(Identifier, p, j).Some? ==>
              IsMatch(Identifier, p, j, MatchAt(Identifier, p, j).value)
              && NameOf(body + p, MatchAt(Identifier, body + p, |body| + j).value)
                  == NameOf(p, MatchAt(Identifier, p, j).value)
  {
    hide MatchAt, IsMatch;
    var s := body + p;
    MatchAtSound(Identifier, p, j);
    MatchAtSound(Identifier, s, |body| + j);
    if MatchAt(Identifier, p, j).Some? {
      var m := MatchAt(Identifier, p, j).value;
      ShiftedMatch(body, p, j, m);
      MatchAtExact(Identifier, s, |body| + j, Match(|body| + m.nameStart, |body| + m.nameEnd, |body| + m.closing));
    } else if MatchAt(Identifier, s, |body| + j).Some? {
      var m' := MatchAt(Identifier, s, |body| + j).value;
      MatchIsAhead(s, |body| + j, m');
      var m := Match(m'.nameStart - |body|, m'.nameEnd - |body|, m'.closing - |body|);
      ShiftedMatch(body, p, j, m);
      MatchAtExact(Identifier, p, j, m);
    }
  }

  lemma MatchIsAhead(s: string, i: nat, m: Match)
    requires IsMatch(Identifier, s, i, m)
    ensures i <= m.nameStart <= m.nameEnd <= m.closing
  {
  }

  lemma ShiftedMatch(body: string, p: string, j: nat, m: Match)
    ensures var m' := Match(|body| + m.nameStart, |body| + m.nameEnd, |body| + m.closing);
            && (IsMatch(Identifier, p, j, m) <==> IsMatch(Identifier, body + p, |body| + j, m'))
            && (IsMatch(Identifier, p, j, m) ==> NameOf(body + p, m') == NameOf(p, m))
  {
    var s := body + p;
    assert forall k :: |body| <= k < |s| ==> s[k] == p[k - |body|];
    assert forall k :: 0 <= k < |p| ==> s[|body| + k] == p[k];
    assert s[|body|..] == p;
  }

  /** Across a seam the names of the whole are the names of the parts: no match crosses. */
  lemma {:induction false} NamesAcrossSeam(body: string, p: string, i: nat)
    requires Seam(p) && i <= |body|
    ensures AllNames(Identifier, body + p, i) == AllNames(Identifier, body, i) + AllNames(Identifier, p, 0)
    decreases |body| - i
  {
    hide MatchAt;
    if i == |body| {
      AllNamesRight(body, p, 0);
    } else {
      NamesAcrossSeam(body, p, i + 1);
      SameMatchLeft(body, p, i);
    }
  }

  lemma SameMatchLeft(body: string, p: string, i: nat)
    requires Seam(p) && i < |body|
    ensures MatchAt(Identifier, body + p, i) == MatchAt(Identifier, body, i)
    ensures MatchAt(Identifier, body, i).Some? ==>
              IsMatch(Identifier, body, i, MatchAt(Identifier, body, i).value)
              && NameOf(body + p, MatchAt(Identifier, body, i).value)
                  == NameOf(body, MatchAt(Identifier, body, i).value)
  {
    hide MatchAt;
    MatchAtSound(Identifier, body + p, i);
    MatchAtSound(Identifier, body, i);
    if MatchAt(Identifier, body, i).Some? {
      var m := MatchAt(Identifier, body, i).value;
      MatchStaysLeft(body, p, i, m);
      MatchAtExact(Identifier, body + p, i, m);
    } else if MatchAt(Identifier, body + p, i).Some? {
      var m := MatchAt(Identifier, body + p, i).value;
      MatchStaysLeft(body, p, i, m);
      MatchAtExact(Identifier, body, i, m);
    }
  }

  /** Text without an opening brace contributes no names, whatever follows it. */
  lemma {:induction false} PlainTextHasNoNames(t: string, rest: string)
    requires '{' !in t
    ensures AllNames(Identifier, t + rest, 0) == AllNames(Identifier, rest, 0)
  {
    var s := t + rest;
    forall k | 0 <= k < |t| ensures MatchAt(Identifier, s, k) == None {
      assert s[k] == t[k] && t[k] in t;
    }
    AllNamesSkips(Identifier, s, 0, |t|);
    AllNamesRight(t, rest, 0);
  }

  /** A well-formed placeholder at the front contributes its name. */
  lemma LeadingPlaceholder(v: string, rest: string)
    requires IsName(Identifier, v)
    ensures AllNames(Identifier, "{{" + v + "}}" + rest, 0) == [v] + AllNames(Identifier, rest, 0)
  {
    hide MatchAt;
    var hole := "{{" + v + "}}";
    var s := hole + rest;
    var m := Match(2, 2 + |v|, 2 + |v|);
    assert s[0] == '{' && s[1] == '{' && s[2 + |v|] == '}' && s[3 + |v|] == '}';
    assert forall k :: 0 <= k < |v| ==> s[2 + k] == v[k];
    MatchAtExact(Identifier, s, 0, m);
    assert NameOf(s, m) == v;
    forall k | 1 <= k < m.End() ensures MatchAt(Identifier, s, k) == None {
      MatchesNeverOverlap(Identifier, Identifier, s, 0, k, m);
    }
    AllNamesSkips(Identifier, s, 1, m.End());
    assert |hole| == m.End();
    AllNamesRight(hole, rest, 0);
  }
}
