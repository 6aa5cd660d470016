/** Substituting a sample's values into a prompt body. */
module Renderer {
  import opened Wrappers
  import opened Placeholders
  import opened RecordKeys

  /** A sample value: absent or null, a string, a number or boolean with its text, or JSON. */
  datatype Value = Absent | Text(text: string) | Scalar(text: string) | Json(text: string)

  datatype Variable = Variable(name: string, datasetField: string)

  /** stringifyValueForBody. */
  function Stringify(v: Value): string {
    match v
    case Absent => ""
    case Text(t) => t
    case Scalar(t) => t
    case Json(t) => t
  }

  /** resolveSampleValue: the mapped dataset field, or the variable's own name. */
  function Resolve(data: map<string, Value>, v: Variable): Value {
    var key := if v.datasetField != "" then v.datasetField else v.name;
    if key in data then data[key] else Absent
  }

  function Assigned(out: map<string, Value>, name: string, value: Value): map<string, Value> {
    if name == PROTO then out else out[name := value]
  }

  function InputVariables(variables: seq<Variable>, data: map<string, Value>): map<string, Value> {
    if variables == [] then map[]
    else
      var last := variables[|variables| - 1];
      Assigned(InputVariables(variables[..|variables| - 1], data), last.name, Resolve(data, last))
  }

  /** buildInputVariables. */
  method BuildInputVariables(variables: seq<Variable>, data: map<string, Value>) returns (out: map<string, Value>)
    ensures out == InputVariables(variables, data)
  {
    out := map[];
    for k := 0 to |variables|
      invariant out == InputVariables(variables[..k], data)
    {
      assert variables[..k + 1][..k] == variables[..k];
      out := Assigned(out, variables[k].name, Resolve(data, variables[k]));
    }
    assert variables[..|variables|] == variables;
  }

  /** The last declaration of a name wins, for every name but the prototype's: its value is the mapped
      dataset field's, whatever the data has under the name, or the name's own without a mapping. */
  lemma {:induction false} LastDeclarationWins(variables: seq<Variable>, data: map<string, Value>, i: nat)
    requires i < |variables| && forall j :: i < j < |variables| ==> variables[j].name != variables[i].name
    requires variables[i].name != PROTO
    ensures variables[i].name in InputVariables(variables, data)
    ensures
      var v, value := variables[i], InputVariables(variables, data)[variables[i].name];
      && (v.datasetField != "" && v.datasetField in data ==> value == data[v.datasetField])
      && (v.datasetField != "" && v.datasetField !in data ==> value == Absent)
      && (v.datasetField == "" && v.name in data ==> value == data[v.name])
      && (v.datasetField == "" && v.name !in data ==> value == Absent)
  {
    if i < |variables| - 1 {
      LastDeclarationWins(variables[..|variables| - 1], data, i);
    }
  }

  /** Only declared names are bound, and never the prototype's, so its placeholder stays verbatim. */
  lemma {:induction false} OnlyDeclaredNames(variables: seq<Variable>, data: map<string, Value>, name: string)
    requires name in InputVariables(variables, data)
    ensures name != PROTO && exists i :: 0 <= i < |variables| && variables[i].name == name
  {
    var n := |variables| - 1;
    hide Resolve;
    if variables[n].name != name || name == PROTO {
      OnlyDeclaredNames(variables[..n], data, name);
      var i :| 0 <= i < n && variables[..n][i].name == name;
      assert variables[i].name == name;
    }
  }

  /** body.replace(PLACEHOLDER_RE, ...) from position i on. */
  function RenderFrom(body: string, i: nat, vars: map<string, Value>): string
    requires i <= |body|
    decreases |body| - i
  {
    var f := NextMatch(Dotted, body, i);
    if f.None? then body[i..]
    else
      var start, m := f.value.start, f.value.m;
      body[i..start] + Replacement(body, f.value, vars) + RenderFrom(body, m.End(), vars)
  }

  function Replacement(body: string, f: Found, vars: map<string, Value>): string
    requires f.start <= f.m.End() <= |body| && f.m.nameStart <= f.m.nameEnd <= |body|
  {
    var name := NameOf(body, f.m);
    if name in vars then Stringify(vars[name]) else body[f.start..f.m.End()]
  }

  /** renderBody. */
  function RenderBody(body: string, vars: map<string, Value>): string {
    RenderFrom(body, 0, vars)
  }

  // ---- the reference: a body is literals and holes ----

  datatype Segment = Literal(text: string) | Hole(raw: string, name: string)

  function Raw(g: Segment): string {
    match g
    case Literal(t) => t
    case Hole(raw, _) => raw
  }

  function Filled(g: Segment, vars: map<string, Value>): string {
    match g
    case Literal(t) => t
    case Hole(raw, name) => if name in vars then Stringify(vars[name]) else raw
  }

  function Join(gs: seq<Segment>): string {
    if gs == [] then "" else Raw(gs[0]) + Join(gs[1..])
  }

  function JoinFilled(gs: seq<Segment>, vars: map<string, Value>): string {
    if gs == [] then "" else Filled(gs[0], vars) + JoinFilled(gs[1..], vars)
  }

  function HoleNames(gs: seq<Segment>): seq<string> {
    if gs == [] then [] else (if gs[0].Hole? then [gs[0].name] else []) + HoleNames(gs[1..])
  }

  function Segments(body: string, i: nat): seq<Segment>
    requires i <= |body|
    decreases |body| - i
  {
    var f := NextMatch(Dotted, body, i);
    if f.None? then [Literal(body[i..])]
    else
      [Literal(body[i..f.value.start]), Hole(body[f.value.start..f.value.m.End()], NameOf(body, f.value.m))]
      + Segments(body, f.value.m.End())
  }

  lemma LiteralThenHole(a: Segment, b: Segment, rest: seq<Segment>, vars: map<string, Value>)
    requires a.Literal? && b.Hole?
    ensures Join([a, b] + rest) == Raw(a) + Raw(b) + Join(rest)
    ensures JoinFilled([a, b] + rest, vars) == Filled(a, vars) + Filled(b, vars) + JoinFilled(rest, vars)
    ensures HoleNames([a, b] + rest) == [b.name] + HoleNames(rest)
  {
    var gs := [a, b] + rest;
    assert gs[1..] == [b] + rest && gs[1..][1..] == rest;
  }

  /** Rendering is one lossless pass: the segments put together give the body back, the holes are
      exactly the placeholders the pattern matches anywhere in the body, and the rendered text is
      the segments with known holes replaced by their values and everything else verbatim. */
  lemma {:induction false} RenderIsFillingHoles(body: string, i: nat, vars: map<string, Value>)
    requires i <= |body|
    ensures Join(Segments(body, i)) == body[i..]
    ensures RenderFrom(body, i, vars) == JoinFilled(Segments(body, i), vars)
    ensures HoleNames(Segments(body, i)) == AllNames(Dotted, body, i)
    decreases |body| - i
  {
    hide NextMatch, Join, JoinFilled, HoleNames, AllNames, Stringify, RenderFrom, Segments, ScanNames, MatchAt,
      Filled;
    Unfold(body, i, vars);
    var f := NextMatch(Dotted, body, i);
    ScanFindsEveryMatch(Dotted, body, i);
    ScanStep(Dotted, body, i);
    if f.None? {
      LoneLiteral(body[i..], vars);
    } else {
      var start, end := f.value.start, f.value.m.End();
      var a, b := Literal(body[i..start]), Hole(body[start..end], NameOf(body, f.value.m));
      RenderIsFillingHoles(body, end, vars);
      ScanFindsEveryMatch(Dotted, body, end);
      LiteralThenHole(a, b, Segments(body, end), vars);
      assert body[i..] == body[i..start] + body[start..end] + body[end..];
    }
  }

  lemma Unfold(body: string, i: nat, vars: map<string, Value>)
    requires i <= |body|
    ensures
      var f := NextMatch(Dotted, body, i);
      if f.None? then Segments(body, i) == [Literal(body[i..])] && RenderFrom(body, i, vars) == body[i..]
      else
        var start, end := f.value.start, f.value.m.End();
        var a, b := Literal(body[i..start]), Hole(body[start..end], NameOf(body, f.value.m));
        && Segments(body, i) == [a, b] + Segments(body, end)
        && RenderFrom(body, i, vars) == Filled(a, vars) + Filled(b, vars) + RenderFrom(body, end, vars)
  {
  }

  function Concat(parts: seq<string>): string {
    if parts == [] then "" else parts[0] + Concat(parts[1..])
  }

  lemma {:induction false} FilledParts(gs: seq<Segment>, vars: map<string, Value>) returns (parts: seq<string>)
    ensures |parts| == |gs| && Concat(parts) == JoinFilled(gs, vars)
    ensures forall k :: 0 <= k < |gs| ==> parts[k] == Filled(gs[k], vars)
  {
    parts := [];
    if gs != [] {
      hide Filled;
      parts := FilledParts(gs[1..], vars);
      parts := [Filled(gs[0], vars)] + parts;
    }
  }

  /** Part by part: a literal stays; the hole of an unbound name stays as it was written; the hole of a
      bound name becomes the text of its value, nothing for an absent one. */
  lemma RenderedParts(body: string, vars: map<string, Value>) returns (parts: seq<string>)
    ensures RenderBody(body, vars) == Concat(parts) && |parts| == |Segments(body, 0)|
    ensures
      forall k :: 0 <= k < |parts| ==>
        match Segments(body, 0)[k]
        case Literal(t) => parts[k] == t
        case Hole(raw, name) =>
          && (name !in vars ==> parts[k] == raw)
          && (name in vars && vars[name].Absent? ==> parts[k] == "")
          && (name in vars && !vars[name].Absent? ==> parts[k] == vars[name].text)
  {
    hide Join, JoinFilled, HoleNames, AllNames, Segments, NextMatch;
    RenderIsFillingHoles(body, 0, vars);
    parts := FilledParts(Segments(body, 0), vars);
  }

  lemma LoneLiteral(t: string, vars: map<string, Value>)
    ensures Join([Literal(t)]) == t && JoinFilled([Literal(t)], vars) == t && HoleNames([Literal(t)]) == []
  {
    assert t + "" == t;
  }

  /** A literal holds no placeholder of its own, so nothing the pass could still replace is left. */
  lemma LiteralsHoldNoPlaceholder(body: string, i: nat, end: nat)
    requires i <= end <= |body| && forall k :: i <= k < end ==> MatchAt(Dotted, body, k) == None
    ensures AllNames(Dotted, body[i..end], 0) == []
  {
    hide MatchAt;
    var t := body[i..end];
    forall k | 0 <= k < |t| ensures MatchAt(Dotted, t, k) == None {
      if MatchAt(Dotted, t, k).Some? {
        var m := MatchAt(Dotted, t, k).value;
        MatchAtSound(Dotted, t, k);
        assert forall j :: 0 <= j < |t| ==> t[j] == body[i + j];
        assert forall j :: i <= j < end ==> body[j] == t[j - i];
        MatchAtExact(Dotted, body, i + k, Match(i + m.nameStart, i + m.nameEnd, i + m.closing));
        assert false;
      }
    }
    AllNamesSkips(Dotted, t, 0, |t|);
  }

  lemma {:induction false} SegmentLiteralsArePlain(body: string, i: nat, k: nat)
    requires i <= |body| && k < |Segments(body, i)| && Segments(body, i)[k].Literal?
    ensures AllNames(Dotted, Segments(body, i)[k].text, 0) == []
    decreases |body| - i
  {
    hide MatchAt, AllNames;
    var f := NextMatch(Dotted, body, i);
    if f.None? {
      LiteralsHoldNoPlaceholder(body, i, |body|);
      assert body[i..] == body[i..|body|];
    } else if k == 0 {
      LiteralsHoldNoPlaceholder(body, i, f.value.start);
    } else if k >= 2 {
      SegmentLiteralsArePlain(body, f.value.m.End(), k - 2);
    }
  }

  /** Without a declared variable that it mentions, a body renders to itself. */
  lemma {:induction false} UnknownNamesStay(body: string, vars: map<string, Value>)
    requires forall name :: name in AllNames(Dotted, body, 0) ==> name !in vars
    ensures RenderBody(body, vars) == body
  {
    hide AllNames, Segments;
    RenderIsFillingHoles(body, 0, vars);
    NothingToFill(Segments(body, 0), vars);
    assert body[0..] == body;
  }

  lemma {:induction false} NothingToFill(gs: seq<Segment>, vars: map<string, Value>)
    requires forall name :: name in HoleNames(gs) ==> name !in vars
    ensures JoinFilled(gs, vars) == Join(gs)
  {
    if gs != [] {
      assert gs[0].Hole? ==> gs[0].name in HoleNames(gs);
      NothingToFill(gs[1..], vars);
    }
  }
}
