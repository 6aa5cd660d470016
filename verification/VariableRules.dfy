/** The whitelist check of a generated prompt body. */
module VariableRules {
  import opened Wrappers
  import opened OrderedSets
  import opened Placeholders

  datatype Validation = Validation(disallowed: seq<string>, missing: seq<string>, removed: seq<string>,
      detected: seq<string>) {
    predicate Ok() { disallowed == [] && removed == [] }
  }

  /** The names not in the list, in order. */
  function NotIn(names: seq<string>, list: seq<string>): (r: seq<string>)
    ensures forall x :: x in r <==> x in names && x !in list
    ensures Unique(names) ==> Unique(r)
  {
    if names == [] then []
    else
      assert names == [names[0]] + names[1..];
      assert Unique(names) ==> Unique(names[1..]) && names[0] !in names[1..];
      if names[0] in list then NotIn(names[1..], list) else [names[0]] + NotIn(names[1..], list)
  }

  lemma {:induction false} NothingLeft(names: seq<string>, list: seq<string>)
    requires forall x :: x in names ==> x in list
    ensures NotIn(names, list) == []
  {
    if names != [] {
      NothingLeft(names[1..], list);
    }
  }

  /** The names in the list, in order. */
  function OnlyIn(names: seq<string>, list: seq<string>): (r: seq<string>)
    ensures forall x :: x in r <==> x in names && x in list
    ensures Unique(names) ==> Unique(r)
  {
    NotIn(names, NotIn(names, list))
  }

  /** validatePromptVariables. */
  function Validate(body: string, allowed: seq<string>, reported: seq<string>, required: seq<string>): Validation {
    var detected := Names(body);
    Validation(NotIn(detected, allowed), NotIn(detected, reported), NotIn(required, detected), detected)
  }

  /** The placeholders of the base body that the next version must keep. */
  function Required(baseBody: string, allowed: seq<string>): seq<string> {
    OnlyIn(Names(baseBody), allowed)
  }

  /** A body that uses only whitelisted names and still has every whitelisted name of the base. */
  ghost predicate Usable(body: string, baseBody: string, allowed: seq<string>) {
    && (forall x :: x in Names(body) ==> x in allowed)
    && (forall x :: x in Names(baseBody) && x in allowed ==> x in Names(body))
  }

  lemma OkMeansUsable(body: string, baseBody: string, allowed: seq<string>, reported: seq<string>)
    ensures Validate(body, allowed, reported, Required(baseBody, allowed)).Ok() <==> Usable(body, baseBody, allowed)
  {
    hide Names, NotIn, OnlyIn;
    var required := Required(baseBody, allowed);
    var v := Validate(body, allowed, reported, required);
    if v.Ok() {
      forall x | x in Names(body) ensures x in allowed {
        assert x in allowed || x in v.disallowed;
      }
      forall x | x in Names(baseBody) && x in allowed ensures x in Names(body) {
        assert x in required;
        assert x in Names(body) || x in v.removed;
      }
    } else if v.disallowed != [] {
      assert v.disallowed[0] in v.disallowed;
    } else {
      assert v.removed[0] in v.removed;
    }
  }

  /** Usability is inherited: what the base had to keep, its usable successors' successors keep. */
  lemma UsableComposes(body: string, parent: string, origin: string, allowed: seq<string>)
    requires Usable(body, parent, allowed)
    requires parent == origin || Usable(parent, origin, allowed)
    ensures Usable(body, origin, allowed)
  {
  }

  /** Every name the renderer would substitute. */
  function Rendered(body: string): seq<string> {
    AllNames(Dotted, body, 0)
  }

  /** For a body with no disallowed name, the whitelist covers everything the renderer matches
      if and only if each rendered name that is not an identifier is itself whitelisted. */
  lemma WhitelistCoversRendererIff(body: string, allowed: seq<string>)
    requires NotIn(Names(body), allowed) == []
    ensures (forall x :: x in Rendered(body) ==> x in allowed)
       <==> (forall x :: x in Rendered(body) && !IsName(Identifier, x) ==> x in allowed)
  {
    hide NotIn, AllNames;
    ValidatorSeesTheIdentifiers(body, 0);
    forall x | x in Rendered(body) && IsName(Identifier, x) ensures x in allowed {
      IdentifierKept(Rendered(body), x);
      assert x in Names(body);
      assert x in allowed || x in NotIn(Names(body), allowed);
    }
  }

  lemma {:induction false} IdentifierKept(names: seq<string>, x: string)
    requires x in names && IsName(Identifier, x)
    ensures x in IdentifiersOnly(names)
  {
    if names[0] != x {
      assert names == [names[0]] + names[1..];
      IdentifierKept(names[1..], x);
    }
  }

  /** And a name that is no identifier does slip past the check: here the name is a lone dot. */
  lemma DottedNameSlipsThrough()
    ensures Validate("{{.}}", [], [], []).Ok() && Rendered("{{.}}") == ["."]
  {
    hide AllNames, Distinct;
    DottedScan();
    ValidatorSeesTheIdentifiers("{{.}}", 0);
    assert AllNames(Identifier, "{{.}}", 0) == [];
    DistinctAppend([], "");
  }

  lemma DottedScan()
    ensures AllNames(Dotted, "{{.}}", 0) == ["."]
  {
    hide MatchAt;
    var s := "{{.}}";
    var m := Match(2, 3, 3);
    MatchAtExact(Dotted, s, 0, m);
    assert MatchAt(Dotted, s, 0) == Some(m);
    forall k | 1 <= k < |s| ensures MatchAt(Dotted, s, k) == None {
      MatchesNeverOverlap(Dotted, Dotted, s, 0, k, m);
    }
    hide IsMatch;
    AllNamesSkips(Dotted, s, 1, |s|);
    assert NameOf(s, m) == ".";
  }
}
