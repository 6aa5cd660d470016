/** The patch section appended when the model keeps losing required placeholders. */
module AutoPatch {
  import opened OrderedSets
  import opened Placeholders
  import opened VariableRules

  datatype Language = English | Chinese

  const ENGLISH_HEADER_1 := "(System auto-patch: these input "
  const ENGLISH_HEADER_2 := "variables were restored; please "
  const ENGLISH_HEADER_3 := "review and place them naturally.)"
  const CHINESE_HEADER := "（系统自动补丁：以下输入变量被系统补回，请人工核查并调整使用位置）"

  function Header(language: Language): string {
    if language.English? then ENGLISH_HEADER_1 + ENGLISH_HEADER_2 + ENGLISH_HEADER_3 else CHINESE_HEADER
  }

  function Line(v: string): string {
    "- " + v + "：" + "{{" + v + "}}"
  }

  function Lines(vs: seq<string>): string {
    if vs == [] then []
    else if |vs| == 1 then Line(vs[0])
    else Line(vs[0]) + "\n" + Lines(vs[1..])
  }

  function PatchText(vs: seq<string>, language: Language): string {
    "\n\n---\n" + Header(language) + "\n" + Lines(vs)
  }

  /** autoPatchPromptBody. */
  function Patch(body: string, missing: seq<string>, language: Language): string {
    body + PatchText(missing, language)
  }

  lemma HeadersArePlain(language: Language)
    ensures '{' !in Header(language)
  {
    if language.English? {
      PlainConcat(ENGLISH_HEADER_1, ENGLISH_HEADER_2, ENGLISH_HEADER_3);
    } else {
      ChineseHeaderIsPlain();
    }
  }

  /** The English header opens with a plain parenthesis, the Chinese one with a full-width one. */
  lemma HeaderSpeaks(language: Language)
    ensures Header(language) != "" && Header(language)[0] == if language.English? then '(' else '（'
  {
  }

  lemma PlainConcat(a: string, b: string, c: string)
    requires '{' !in a && '{' !in b && '{' !in c
    ensures '{' !in a + b + c
  {
  }

  lemma ChineseHeaderIsPlain()
    ensures '{' !in CHINESE_HEADER
  {
  }

  lemma LineNames(v: string, rest: string)
    requires IsName(Identifier, v)
    ensures AllNames(Identifier, Line(v) + rest, 0) == [v] + AllNames(Identifier, rest, 0)
  {
    hide AllNames;
    var lead := "- " + v + "：";
    assert '{' !in v by {
      assert forall k :: 0 <= k < |v| ==> v[k] != '{';
    }
    assert Line(v) + rest == lead + ("{{" + v + "}}" + rest);
    PlainTextHasNoNames(lead, "{{" + v + "}}" + rest);
    LeadingPlaceholder(v, rest);
  }

  lemma {:induction false} LinesNames(vs: seq<string>)
    requires forall v :: v in vs ==> IsName(Identifier, v)
    ensures AllNames(Identifier, Lines(vs), 0) == vs
  {
    if vs == [] {
    } else {
      assert vs == [vs[0]] + vs[1..];
      LinesNames(vs[1..]);
      if |vs| == 1 {
        assert Line(vs[0]) + [] == Line(vs[0]);
        LineNames(vs[0], []);
      } else {
        assert Lines(vs) == Line(vs[0]) + ("\n" + Lines(vs[1..]));
        LineNames(vs[0], "\n" + Lines(vs[1..]));
        PlainTextHasNoNames("\n", Lines(vs[1..]));
      }
    }
  }

  lemma PatchTextNames(vs: seq<string>, language: Language)
    requires forall v :: v in vs ==> IsName(Identifier, v)
    ensures Seam(PatchText(vs, language))
    ensures AllNames(Identifier, PatchText(vs, language), 0) == vs
  {
    hide AllNames, Header, Lines;
    HeadersArePlain(language);
    LinesNames(vs);
    var lead := "\n\n---\n" + Header(language) + "\n";
    assert PatchText(vs, language) == lead + Lines(vs);
    PlainTextHasNoNames(lead, Lines(vs));
    var p := PatchText(vs, language);
    assert p[0] == '\n' && p[1] == '\n' && p[2] == '-';
  }

  /** Scanning the patched body yields exactly the body's names followed by the restored ones:
      no match is created or destroyed at the seam, whatever the body ends with. */
  lemma PatchedNames(body: string, missing: seq<string>, language: Language)
    requires forall v :: v in missing ==> IsName(Identifier, v)
    ensures AllNames(Identifier, Patch(body, missing, language), 0) == AllNames(Identifier, body, 0) + missing
  {
    PatchTextNames(missing, language);
    NamesAcrossSeam(body, PatchText(missing, language), 0);
  }

  /** So patching in exactly the required names that were lost always repairs the body. */
  lemma PatchRepairs(body: string, allowed: seq<string>, reported: seq<string>, required: seq<string>,
      language: Language)
    requires Unique(required) && forall x :: x in required ==> IsName(Identifier, x) && x in allowed
    requires Validate(body, allowed, reported, required).disallowed == []
    ensures
      var removed := Validate(body, allowed, reported, required).removed;
      var patched := Patch(body, removed, language);
      Validate(patched, allowed, reported, required).Ok() && Names(patched) == Names(body) + removed
  {
    hide AllNames, NotIn, Distinct, Patch;
    var v := Validate(body, allowed, reported, required);
    var patched := Patch(body, v.removed, language);
    PatchedNames(body, v.removed, language);
    DistinctExtends(AllNames(Identifier, body, 0), v.removed);
    assert Names(patched) == Names(body) + v.removed;
    var after := Validate(patched, allowed, reported, required);
    forall x | x in Names(patched) ensures x in allowed {
      assert x in v.removed || x in allowed || x in v.disallowed;
    }
    NothingLeft(Names(patched), allowed);
    forall x | x in required ensures x in Names(patched) {
      assert x in v.removed || x in Names(body);
    }
    NothingLeft(required, Names(patched));
  }
}
