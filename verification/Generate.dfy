/**
 Generating the next prompt version from an untrusted model: validate, retry, auto-patch.
 The model's replies are arbitrary inputs.
 */
module Generate {
  import opened Wrappers
  import opened OrderedSets
  import opened Placeholders
  import opened VariableRules
  import opened AutoPatch

  const MAX_VARIABLE_RETRY_ATTEMPTS := 2

  /** What one call to the model comes back with, after JSON parsing. */
  datatype Reply =
    | InvokeFailed(message: string)
    | Malformed(message: string)
    | Parsed(body: string, variablesUsed: seq<string>, appliedChangeIds: seq<string>)

  datatype GenerateError =
    | InvokeError(message: string)
    | MalformedGeneration(message: string)
    | InvalidAppliedChangeReference(ids: seq<string>)
    | InvalidVariableUsage(disallowed: seq<string>, missing: seq<string>, removed: seq<string>)

  datatype Generated = Generated(body: string, validation: Validation, retries: nat, autoPatched: bool,
      patchedVariables: seq<string>)

  /** validateAppliedChanges: the non-empty ids that the evidence does not know. */
  function UnknownChanges(applied: seq<string>, known: set<string>): (r: seq<string>)
    ensures forall id :: id in r <==> id in applied && id != "" && id !in known
    ensures r == [] <==> forall id :: id in applied && id != "" ==> id in known
  {
    if applied == [] then []
    else
      var rest := UnknownChanges(applied[1..], known);
      assert applied == [applied[0]] + applied[1..];
      if applied[0] != "" && applied[0] !in known then [applied[0]] + rest else rest
  }

  /** A reply that only lost required placeholders: the one fault worth a retry. */
  ghost predicate OnlyLostPlaceholders(r: Reply, baseBody: string, allowed: seq<string>, known: set<string>) {
    && r.Parsed?
    && UnknownChanges(r.appliedChangeIds, known) == []
    && NotIn(Names(r.body), allowed) == []
    && exists x :: x in Required(baseBody, allowed) && x !in Names(r.body)
  }

  /** The fault that ends generation, read off the reply alone. Placeholders are only judged once all
      applied changes are known. */
  ghost predicate Fatal(r: Reply, e: GenerateError, baseBody: string, allowed: seq<string>, known: set<string>) {
    match e
    case InvokeError(message) => r == InvokeFailed(message)
    case MalformedGeneration(message) => r == Malformed(message)
    case InvalidAppliedChangeReference(ids) =>
      r.Parsed? && ids != [] && ids == UnknownChanges(r.appliedChangeIds, known)
    case InvalidVariableUsage(disallowed, missing, removed) =>
      && r.Parsed? && disallowed != [] && disallowed == NotIn(Names(r.body), allowed)
      && (forall id :: id in r.appliedChangeIds && id != "" ==> id in known)
      && (forall x :: x in missing <==> x in Names(r.body) && x !in r.variablesUsed)
      && (forall x :: x in removed <==> x in Names(baseBody) && x in allowed && x !in Names(r.body))
  }

  /** The error of the calls from this attempt on: that of the first reply that is not merely missing
      placeholders. */
  function GenerationError(baseBody: string, allowed: seq<string>, known: set<string>, replies: nat -> Reply,
      attempt: nat): Option<GenerateError>
    requires attempt <= MAX_VARIABLE_RETRY_ATTEMPTS
    decreases MAX_VARIABLE_RETRY_ATTEMPTS - attempt
  {
    match replies(attempt)
    case InvokeFailed(message) => Some(InvokeError(message))
    case Malformed(message) => Some(MalformedGeneration(message))
    case Parsed(body, reported, applied) =>
      var unknown := UnknownChanges(applied, known);
      var v := Validate(body, allowed, reported, Required(baseBody, allowed));
      if unknown != [] then Some(InvalidAppliedChangeReference(unknown))
      else if v.disallowed != [] then Some(InvalidVariableUsage(v.disallowed, v.missing, v.removed))
      else if v.removed != [] && attempt < MAX_VARIABLE_RETRY_ATTEMPTS then
        GenerationError(baseBody, allowed, known, replies, attempt + 1)
      else None
  }

  lemma RequiredAreNames(baseBody: string, allowed: seq<string>)
    ensures Unique(Required(baseBody, allowed))
    ensures forall x :: x in Required(baseBody, allowed) ==> IsName(Identifier, x) && x in allowed
  {
    hide AllNames, NotIn;
    AllNamesAreNames(Identifier, baseBody, 0);
  }

  /** The retry loop of generateNextVersion. It makes at most three calls; every call but the
      last only lost placeholders; it fails only for a fault of the last reply itself (so the
      error after auto-patching is unreachable); and whatever it returns is usable. */
  method GenerateNextVersion(baseBody: string, allowed: seq<string>, known: set<string>, language: Language,
      replies: nat -> Reply)
    returns (r: Result<Generated, GenerateError>, calls: nat)
    ensures 1 <= calls <= 3
    ensures forall i :: 0 <= i < calls - 1 ==> OnlyLostPlaceholders(replies(i), baseBody, allowed, known)
    ensures r.Err? ==> Fatal(replies(calls - 1), r.error, baseBody, allowed, known)
    ensures GenerationError(baseBody, allowed, known, replies, 0) == if r.Err? then Some(r.error) else None
    ensures r.Ok? ==> replies(calls - 1).Parsed? && r.value.retries == calls - 1
    ensures r.Ok? ==> Usable(r.value.body, baseBody, allowed) && r.value.validation.detected == Names(r.value.body)
    ensures r.Ok? ==> forall id :: id in replies(calls - 1).appliedChangeIds && id != "" ==> id in known
    ensures r.Ok? ==> forall x :: x in Names(r.value.body) ==> x in allowed
    ensures r.Ok? ==> forall x :: x in Names(baseBody) && x in allowed ==> x in Names(r.value.body)
    ensures r.Ok? && !r.value.autoPatched ==> r.value.body == replies(calls - 1).body && r.value.patchedVariables == []
    ensures r.Ok? && r.value.autoPatched ==>
              calls == 3
              && OnlyLostPlaceholders(replies(calls - 1), baseBody, allowed, known)
              && r.value.body == Patch(replies(calls - 1).body, r.value.patchedVariables, language)
              && Names(r.value.body) == Names(replies(calls - 1).body) + r.value.patchedVariables
  {
    hide Names, NotIn, OnlyIn, Patch, UnknownChanges, Fatal, Usable;
    var required := Required(baseBody, allowed);
    RequiredAreNames(baseBody, allowed);
    calls := 0;
    for attempt := 0 to MAX_VARIABLE_RETRY_ATTEMPTS + 1
      invariant calls == attempt
      invariant forall i :: 0 <= i < attempt ==> OnlyLostPlaceholders(replies(i), baseBody, allowed, known)
      invariant attempt <= MAX_VARIABLE_RETRY_ATTEMPTS
      invariant GenerationError(baseBody, allowed, known, replies, 0)
             == GenerationError(baseBody, allowed, known, replies, attempt)
    {
      var reply := replies(attempt);
      calls := attempt + 1;
      match reply {
        case InvokeFailed(message) =>
          FailureIsFatal(reply, baseBody, allowed, known);
          return Err(InvokeError(message)), calls;
        case Malformed(message) =>
          FailureIsFatal(reply, baseBody, allowed, known);
          return Err(MalformedGeneration(message)), calls;
        case Parsed(_, _, _) =>
      }
      var invalid := UnknownChanges(reply.appliedChangeIds, known);
      if |invalid| > 0 {
        FailureIsFatal(reply, baseBody, allowed, known);
        return Err(InvalidAppliedChangeReference(invalid)), calls;
      }
      var validation := Validate(reply.body, allowed, reply.variablesUsed, required);
      OkMeansUsable(reply.body, baseBody, allowed, reply.variablesUsed);
      if |validation.disallowed| > 0 {
        FailureIsFatal(reply, baseBody, allowed, known);
        return Err(InvalidVariableUsage(validation.disallowed, validation.missing, validation.removed)), calls;
      }
      if validation.Ok() {
        UsableMeans(reply.body, baseBody, allowed);
        return Ok(Generated(reply.body, validation, attempt, false, [])), calls;
      }
      LostSomething(reply.body, allowed, reply.variablesUsed, required);
      if attempt == MAX_VARIABLE_RETRY_ATTEMPTS {
        var patched := Patch(reply.body, validation.removed, language);
        var revalidation := Validate(patched, allowed, reply.variablesUsed, required);
        PatchRepairs(reply.body, allowed, reply.variablesUsed, required, language);
        OkMeansUsable(patched, baseBody, allowed, reply.variablesUsed);
        if !revalidation.Ok() {
          assert false;
        }
        UsableMeans(patched, baseBody, allowed);
        return Ok(Generated(patched, revalidation, attempt, true, validation.removed)), calls;
      }
    }
    assert false;
  }

  /** Each check that fails is the fault it reports, given that those before it passed. */
  lemma FailureIsFatal(r: Reply, baseBody: string, allowed: seq<string>, known: set<string>)
    ensures r.InvokeFailed? ==> Fatal(r, InvokeError(r.message), baseBody, allowed, known)
    ensures r.Malformed? ==> Fatal(r, MalformedGeneration(r.message), baseBody, allowed, known)
    ensures r.Parsed? && UnknownChanges(r.appliedChangeIds, known) != [] ==>
              Fatal(r, InvalidAppliedChangeReference(UnknownChanges(r.appliedChangeIds, known)), baseBody, allowed,
                  known)
    ensures r.Parsed? && UnknownChanges(r.appliedChangeIds, known) == [] ==>
              var v := Validate(r.body, allowed, r.variablesUsed, Required(baseBody, allowed));
              v.disallowed != [] ==>
              Fatal(r, InvalidVariableUsage(v.disallowed, v.missing, v.removed), baseBody, allowed, known)
  {
    hide Names, NotIn, OnlyIn, UnknownChanges;
  }

  lemma UsableMeans(body: string, baseBody: string, allowed: seq<string>)
    requires Usable(body, baseBody, allowed)
    ensures forall x :: x in Names(body) ==> x in allowed
    ensures forall x :: x in Names(baseBody) && x in allowed ==> x in Names(body)
  {
  }

  lemma LostSomething(body: string, allowed: seq<string>, reported: seq<string>, required: seq<string>)
    requires !Validate(body, allowed, reported, required).Ok()
        && Validate(body, allowed, reported, required).disallowed == []
    ensures exists x :: x in required && x !in Names(body)
  {
    var removed := Validate(body, allowed, reported, required).removed;
    assert removed[0] in removed;
  }
}
