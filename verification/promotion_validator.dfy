/** Promotion validation: the rule set matching the promotion target is run rule by rule,
    non-empty rule errors are recorded in the validation result under the rule's name, a rule
    that throws aborts validation, and a paths promotion with paths is validated against a
    temporary remote repository that is registered first and always removed afterwards. */
module PromotionValidation {
  import opened Common
  import opened StoreKeys
  import opened StoreRegistry

  const PromoteRepoPrefix: string := "Promote_"

  /** The kinds of promotion request; a paths request may carry no path set (null). */
  datatype PromoteRequest =
    | GroupPromoteRequest(source: StoreKey, target: StoreKey)
    | PathsPromoteRequest(source: StoreKey, target: StoreKey, paths: Option<set<string>>)
    | OtherPromoteRequest(source: StoreKey, target: StoreKey)

  datatype ValidationFailure = InvalidRequest | RuleFailed(rule: string) | StoreUnavailable

  /** `needTempRepo`: only a paths request with a non-empty path set needs a temporary
      repository; an unknown request kind is refused. */
  function NeedTempRepo(req: PromoteRequest): (r: Result<bool, ValidationFailure>)
    ensures r.Err? <==> req.OtherPromoteRequest?
    ensures r.Err? ==> r.error == InvalidRequest
    ensures req.GroupPromoteRequest? ==> r == Ok(false)
    ensures req.PathsPromoteRequest? ==> r == Ok(req.paths.Some? && req.paths.value != {})
  {
    match req
    case GroupPromoteRequest(_, _) => Ok(false)
    case PathsPromoteRequest(_, _, paths) => Ok(paths.Some? && paths.value != {})
    case OtherPromoteRequest(_, _) => Err(InvalidRequest)
  }

  /** The path masks of the temporary remote: every requested path followed by ".*". */
  function TempMasks(paths: set<string>): set<string> {
    set p | p in paths :: p + ".*"
  }

  /** The masks are exactly the requested paths with the suffix, one mask per path: a path is
      requested iff its mask is present, and nothing else is. */
  lemma TempMasksExact(paths: set<string>, p: string)
    ensures p in paths <==> p + ".*" in TempMasks(paths)
    ensures forall m :: m in TempMasks(paths) ==> EndsWith(m, ".*") && m[..|m| - 2] in paths
  {
    if p + ".*" in TempMasks(paths) {
      var q :| q in paths && q + ".*" == p + ".*";
      assert |q| == |p|;
      assert p == (p + ".*")[..|p|] == (q + ".*")[..|q|] == q;
    }
    forall m | m in TempMasks(paths)
      ensures EndsWith(m, ".*") && m[..|m| - 2] in paths
    {
      var q :| q in paths && m == q + ".*";
      assert m[..|m| - 2] == q;
    }
  }

  /** The temporary repository's name; `stamp` stands for the formatted clock reading. */
  function TempName(req: PromoteRequest, stamp: string): string {
    PromoteRepoPrefix + "tmp_" + req.source.name + stamp
  }

  /** The temporary remote registered for a paths request with paths. */
  function TempRemote(req: PromoteRequest, baseUrl: string, stamp: string): (r: ArtifactStore)
    requires req.PathsPromoteRequest? && req.paths.Some?
    ensures r.RemoteRepository? && WellKinded(r) && r.url == baseUrl
    ensures r.pathMaskPatterns == TempMasks(req.paths.value)
  {
    var key := StoreKey(MavenPkg, Remote, TempName(req, stamp));
    RemoteRepository(key, baseUrl, map[], TempMasks(req.paths.value), "html", 0)
  }

  // ---------------------------------------------------------------------------
  // Rules

  /** `new File(ref).getName()`: the last path component, trailing separators ignored. */
  function RuleFileName(ref: string): (r: string)
    ensures '/' !in r
  {
    FileName(StripTrailing(ref, '/'))
  }

  /** What a rule does on this request: returns an error text (empty when it passes), or
      throws. */
  datatype RuleOutcome = Returned(error: string) | Threw

  /** A rule mapping: its name and its behaviour on this request. */
  datatype RuleMapping = RuleMapping(name: string, outcome: RuleOutcome)

  /** A named rule set; `ruleNames` is null-free here (a null list is the empty one). */
  datatype ValidationRuleSet = ValidationRuleSet(name: string, ruleNames: seq<string>)

  /** The rule a reference resolves to, if any. */
  function Lookup(ref: string, mappings: map<string, RuleMapping>): Option<RuleMapping> {
    var n := RuleFileName(ref);
    if n in mappings then Some(mappings[n]) else None
  }

  predicate Throws(ref: string, mappings: map<string, RuleMapping>) {
    Lookup(ref, mappings).Some? && Lookup(ref, mappings).value.outcome.Threw?
  }

  /** The reference resolves to a rule named `k` that returned a non-empty error `e`. */
  predicate Reports(ref: string, mappings: map<string, RuleMapping>, k: string, e: string) {
    Lookup(ref, mappings).Some? && Lookup(ref, mappings).value.name == k &&
    Lookup(ref, mappings).value.outcome == Returned(e) && e != ""
  }

  datatype RunState = RunState(errors: map<string, string>, aborted: Option<string>)

  /** The errors recorded, and the rule that aborted, after the first `n` references. */
  function Run(refs: seq<string>, n: nat, mappings: map<string, RuleMapping>, errors0: map<string, string>)
    : (r: RunState)
    requires n <= |refs|
    ensures r.aborted.None? ==> r.errors.Keys >= errors0.Keys
  {
    if n == 0 then RunState(errors0, None)
    else
      var prev := Run(refs, n - 1, mappings, errors0);
      if prev.aborted.Some? then prev
      else Step(prev.errors, refs[n - 1], mappings)
  }

  /** One iteration of the rule loop. */
  function Step(errors: map<string, string>, ref: string, mappings: map<string, RuleMapping>): (r: RunState)
    ensures r.aborted.None? ==> r.errors.Keys >= errors.Keys
  {
    match Lookup(ref, mappings)
    case None => RunState(errors, None)
    case Some(rule) =>
      match rule.outcome
      case Threw => RunState(errors, Some(rule.name))
      case Returned(e) => if e != "" then RunState(errors[rule.name := e], None) else RunState(errors, None)
  }

  /** The loop aborts exactly when some reference among the first `n` resolves to a rule that
      throws, and it is the first such rule that is reported. */
  lemma {:induction false} RunAborts(refs: seq<string>, n: nat, mappings: map<string, RuleMapping>,
                                     errors0: map<string, string>)
    requires n <= |refs|
    ensures Run(refs, n, mappings, errors0).aborted.Some? <==> exists i :: 0 <= i < n && Throws(refs[i], mappings)
    ensures Run(refs, n, mappings, errors0).aborted.Some? ==>
      exists i :: 0 <= i < n && Throws(refs[i], mappings) &&
        (forall j :: 0 <= j < i ==> !Throws(refs[j], mappings)) &&
        Run(refs, n, mappings, errors0).aborted.value == Lookup(refs[i], mappings).value.name
  {
    if n > 0 {
      RunAborts(refs, n - 1, mappings, errors0);
      var prev := Run(refs, n - 1, mappings, errors0);
      if prev.aborted.None? {
        assert forall i :: 0 <= i < n - 1 ==> !Throws(refs[i], mappings);
        if Throws(refs[n - 1], mappings) {
          assert Run(refs, n, mappings, errors0).aborted.value == Lookup(refs[n - 1], mappings).value.name;
        }
      }
    }
  }

  /** A rule that reached its turn records its non-empty error under its name: a name is in
      the result iff it was there before or a rule that ran under that name reported an
      error. An empty error records nothing. */
  lemma {:induction false} RunErrorKeys(refs: seq<string>, n: nat, mappings: map<string, RuleMapping>,
                                        errors0: map<string, string>, k: string)
    requires n <= |refs|
    ensures k in Run(refs, n, mappings, errors0).errors <==>
      k in errors0 ||
      exists i, e :: 0 <= i < n && (forall j :: 0 <= j < i ==> !Throws(refs[j], mappings)) &&
        Reports(refs[i], mappings, k, e)
  {
    if n > 0 {
      RunErrorKeys(refs, n - 1, mappings, errors0, k);
      RunAborts(refs, n - 1, mappings, errors0);
      var prev := Run(refs, n - 1, mappings, errors0);
      if prev.aborted.Some? {
        var t :| 0 <= t < n - 1 && Throws(refs[t], mappings);
        if exists i, e :: 0 <= i < n && (forall j :: 0 <= j < i ==> !Throws(refs[j], mappings)) &&
                          Reports(refs[i], mappings, k, e) {
          var i, e :| 0 <= i < n && (forall j :: 0 <= j < i ==> !Throws(refs[j], mappings)) &&
                      Reports(refs[i], mappings, k, e);
          if i == n - 1 {
            assert false;
          }
        }
      } else {
        assert forall j :: 0 <= j < n - 1 ==> !Throws(refs[j], mappings);
        var rn := refs[n - 1];
        if exists e :: Reports(rn, mappings, k, e) {
          var e :| Reports(rn, mappings, k, e);
          assert k in Run(refs, n, mappings, errors0).errors;
        } else if k in Run(refs, n, mappings, errors0).errors && k !in prev.errors {
          assert Reports(rn, mappings, k, Lookup(rn, mappings).value.outcome.error);
        }
      }
    }
  }

  /** No reference before the `i`-th resolves to a rule that throws, so the loop reaches it. */
  predicate Reached(refs: seq<string>, i: nat, mappings: map<string, RuleMapping>)
    requires i <= |refs|
  {
    forall j :: 0 <= j < i ==> !Throws(refs[j], mappings)
  }

  /** The reference resolves to a rule named `k` that returned a non-empty error. */
  predicate ReportsName(ref: string, mappings: map<string, RuleMapping>, k: string) {
    Lookup(ref, mappings).Some? && Lookup(ref, mappings).value.name == k &&
    Lookup(ref, mappings).value.outcome.Returned? && Lookup(ref, mappings).value.outcome.error != ""
  }

  /** The `i`-th reference is the last one among the first `n` that the loop reaches and that
      reports an error under the name `k`. */
  predicate LastReport(refs: seq<string>, n: nat, mappings: map<string, RuleMapping>, k: string, i: nat)
    requires n <= |refs|
  {
    i < n && Reached(refs, i, mappings) && ReportsName(refs[i], mappings, k) &&
    forall j :: i < j < n && Reached(refs, j, mappings) ==> !ReportsName(refs[j], mappings, k)
  }

  /** One iteration seen from a name `k`: a rule reporting under `k` records its message; any
      other leaves what `k` had; the iteration aborts exactly on a throwing rule. */
  lemma StepName(errors: map<string, string>, ref: string, mappings: map<string, RuleMapping>, k: string)
    ensures Step(errors, ref, mappings).aborted.Some? <==> Throws(ref, mappings)
    ensures ReportsName(ref, mappings, k) ==>
      k in Step(errors, ref, mappings).errors && Reports(ref, mappings, k, Step(errors, ref, mappings).errors[k])
    ensures !ReportsName(ref, mappings, k) ==>
      (k in Step(errors, ref, mappings).errors <==> k in errors) &&
      (k in errors ==> Step(errors, ref, mappings).errors[k] == errors[k])
  {
  }

  /** The first `n` references are all reached when the loop has not aborted after them. */
  lemma ReachedWhenRunning(refs: seq<string>, n: nat, mappings: map<string, RuleMapping>, errors0: map<string, string>)
    requires n <= |refs|
    ensures Run(refs, n, mappings, errors0).aborted.None? <==> Reached(refs, n, mappings)
  {
    RunAborts(refs, n, mappings, errors0);
  }

  /** One more reference seen from a name `k`: when the loop reaches it and it reports under
      `k`, its message is recorded; otherwise `k` keeps what it had. */
  lemma RunOneMore(refs: seq<string>, n: nat, mappings: map<string, RuleMapping>, errors0: map<string, string>, k: string)
    requires 0 < n <= |refs|
    ensures Reached(refs, n - 1, mappings) && ReportsName(refs[n - 1], mappings, k) ==>
      k in Run(refs, n, mappings, errors0).errors &&
      Reports(refs[n - 1], mappings, k, Run(refs, n, mappings, errors0).errors[k])
    ensures !(Reached(refs, n - 1, mappings) && ReportsName(refs[n - 1], mappings, k)) ==>
      (k in Run(refs, n, mappings, errors0).errors <==> k in Run(refs, n - 1, mappings, errors0).errors) &&
      (k in Run(refs, n - 1, mappings, errors0).errors ==>
        Run(refs, n, mappings, errors0).errors[k] == Run(refs, n - 1, mappings, errors0).errors[k])
  {
    var prev := Run(refs, n - 1, mappings, errors0);
    ReachedWhenRunning(refs, n - 1, mappings, errors0);
    StepName(prev.errors, refs[n - 1], mappings, k);
  }

  /** A last report before the final reference is also the last one without it, and the final
      reference then does not report under that name once reached. */
  lemma LastReportShrinks(refs: seq<string>, n: nat, mappings: map<string, RuleMapping>, k: string, i: nat)
    requires n <= |refs| && LastReport(refs, n, mappings, k, i) && i < n - 1
    ensures LastReport(refs, n - 1, mappings, k, i)
    ensures !(Reached(refs, n - 1, mappings) && ReportsName(refs[n - 1], mappings, k))
  {
  }

  /** The message recorded under a name is the one of the last rule of that name to report
      before any abort. */
  lemma {:induction false} RunErrorValue(refs: seq<string>, n: nat, mappings: map<string, RuleMapping>,
                                         errors0: map<string, string>, k: string, i: nat)
    requires n <= |refs| && LastReport(refs, n, mappings, k, i)
    ensures k in Run(refs, n, mappings, errors0).errors
    ensures Reports(refs[i], mappings, k, Run(refs, n, mappings, errors0).errors[k])
  {
    if i < n - 1 {
      LastReportShrinks(refs, n, mappings, k, i);
      RunErrorValue(refs, n - 1, mappings, errors0, k, i);
      RunOneMore(refs, n, mappings, errors0, k);
    } else {
      assert Reached(refs, n - 1, mappings) && ReportsName(refs[n - 1], mappings, k) by {
        assert i == n - 1;
      }
      RunOneMore(refs, n, mappings, errors0, k);
    }
  }

  /** A name no reached rule reports keeps what it had before the loop, and is recorded only
      if it was. */
  lemma {:induction false} RunErrorUnreported(refs: seq<string>, n: nat, mappings: map<string, RuleMapping>,
                                              errors0: map<string, string>, k: string)
    requires n <= |refs|
    requires forall i :: 0 <= i < n && Reached(refs, i, mappings) ==> !ReportsName(refs[i], mappings, k)
    ensures k in Run(refs, n, mappings, errors0).errors <==> k in errors0
    ensures k in errors0 ==> Run(refs, n, mappings, errors0).errors[k] == errors0[k]
  {
    if n > 0 {
      RunErrorUnreported(refs, n - 1, mappings, errors0, k);
      RunOneMore(refs, n, mappings, errors0, k);
    }
  }

  /** What later rules see: an error already recorded is overwritten only by a rule of the same
      name; a rule returning an empty error never changes the result. */
  lemma EmptyErrorRecordsNothing(errors: map<string, string>, ref: string, mappings: map<string, RuleMapping>)
    requires Lookup(ref, mappings).Some? && Lookup(ref, mappings).value.outcome == Returned("")
    ensures Step(errors, ref, mappings) == RunState(errors, None)
  {
  }

  // ---------------------------------------------------------------------------
  // Validation

  /** The validation result that rules report into. */
  class ValidationResult {
    var ruleSet: Option<string>
    var validatorErrors: map<string, string>

    constructor ()
      ensures ruleSet == None && validatorErrors == map[]
    {
      ruleSet := None;
      validatorErrors := map[];
    }

    method SetRuleSet(name: string)
      modifies this
      ensures ruleSet == Some(name) && validatorErrors == old(validatorErrors)
    {
      ruleSet := Some(name);
    }

    method AddValidatorError(rule: string, error: string)
      modifies this
      ensures validatorErrors == old(validatorErrors)[rule := error] && ruleSet == old(ruleSet)
    {
      validatorErrors := validatorErrors[rule := error];
    }
  }

  /** The key of the temporary remote for this request. */
  function TempKey(req: PromoteRequest, stamp: string): StoreKey {
    StoreKey(MavenPkg, Remote, TempName(req, stamp))
  }

  /** Which registry call of `validate` throws `IndyDataException`, if any: the one in
      `getRequestStore` (storing the temporary remote, or looking up the source), or the
      deletion of the temporary remote. A call that throws changes nothing. */
  datatype RegistryFault = NoRegistryFault | RequestStoreThrows | TempDeleteThrows

  /** `validate`. `ruleSet` is the rule set matching the target, `mappings` the rules by name
      with their behaviour on this request, `stamp` the clock reading in the temporary name,
      `fault` the registry call that throws. A failure in `getRequestStore` is rethrown before
      any rule runs; a failure to delete the temporary remote is logged and swallowed. */
  method Validate(request: PromoteRequest, baseUrl: string, stamp: string, ruleSet: Option<ValidationRuleSet>,
                  mappings: map<string, RuleMapping>, result: ValidationResult, registry: StoreDataManager,
                  fault: RegistryFault)
    returns (r: Result<(), ValidationFailure>)
    requires registry.Valid()
    modifies result, registry
    ensures registry.Valid()
    ensures ruleSet.None? ==>
      r.Ok? && result.ruleSet == old(result.ruleSet) && result.validatorErrors == old(result.validatorErrors) &&
      registry.stores == old(registry.stores)
    ensures ruleSet.Some? ==> result.ruleSet == Some(ruleSet.value.name)
    ensures ruleSet.Some? && ruleSet.value.ruleNames == [] ==>
      r.Ok? && result.validatorErrors == old(result.validatorErrors) && registry.stores == old(registry.stores)
    ensures ruleSet.Some? && ruleSet.value.ruleNames != [] && request.OtherPromoteRequest? ==>
      r == Err(InvalidRequest) && result.validatorErrors == old(result.validatorErrors) &&
      registry.stores == old(registry.stores)
    ensures ruleSet.Some? && ruleSet.value.ruleNames != [] && !request.OtherPromoteRequest? && fault == RequestStoreThrows ==>
      r == Err(StoreUnavailable) && result.validatorErrors == old(result.validatorErrors) &&
      registry.stores == old(registry.stores)
    ensures ruleSet.Some? && ruleSet.value.ruleNames != [] && !request.OtherPromoteRequest? && fault != RequestStoreThrows ==>
      var refs := ruleSet.value.ruleNames;
      var run := Run(refs, |refs|, mappings, old(result.validatorErrors));
      result.validatorErrors == run.errors &&
      (r.Err? <==> run.aborted.Some?) && (r.Err? ==> r.error == RuleFailed(run.aborted.value)) &&
      registry.stores == if NeedTempRepo(request) != Ok(true) then old(registry.stores)
                         else if fault == TempDeleteThrows
                         then old(registry.stores)[TempKey(request, stamp) := TempRemote(request, baseUrl, stamp)]
                         else old(registry.stores) - {TempKey(request, stamp)}
  {
    if ruleSet.None? {
      return Ok(());
    }
    result.SetRuleSet(ruleSet.value.name);
    var refs := ruleSet.value.ruleNames;
    if refs == [] {
      return Ok(());
    }
    // getRequestStore
    var needTemp := NeedTempRepo(request);
    if needTemp.Err? {
      return Err(needTemp.error);
    }
    if fault == RequestStoreThrows {
      return Err(StoreUnavailable);
    }
    if needTemp.value {
      var stored := registry.StoreArtifactStore(TempRemote(request, baseUrl, stamp), false);
    }
    r := RunRules(refs, mappings, result);
    // finally
    if needTemp.value && fault != TempDeleteThrows {
      registry.DeleteArtifactStore(TempKey(request, stamp));
    }
  }

  /** The rule loop of `validate`: each reference with a known rule is run in order, a
      non-empty message is recorded under the rule's name, and the first rule that throws ends
      the loop with that rule's failure; the errors recorded and the abort are `Run`'s. */
  method RunRules(refs: seq<string>, mappings: map<string, RuleMapping>, result: ValidationResult)
    returns (r: Result<(), ValidationFailure>)
    modifies result
    ensures result.ruleSet == old(result.ruleSet)
    ensures var run := Run(refs, |refs|, mappings, old(result.validatorErrors));
      result.validatorErrors == run.errors &&
      (r.Err? <==> run.aborted.Some?) && (r.Err? ==> r.error == RuleFailed(run.aborted.value))
  {
    var i := 0;
    r := Ok(());
    while i < |refs|
      invariant 0 <= i <= |refs|
      invariant Run(refs, i, mappings, old(result.validatorErrors)).aborted.None?
      invariant result.validatorErrors == Run(refs, i, mappings, old(result.validatorErrors)).errors
      invariant result.ruleSet == old(result.ruleSet)
    {
      var rule := Lookup(refs[i], mappings);
      if rule.Some? {
        match rule.value.outcome
        case Threw =>
          r := Err(RuleFailed(rule.value.name));
          assert Run(refs, i + 1, mappings, old(result.validatorErrors)).aborted == Some(rule.value.name);
          RunStaysAborted(refs, i + 1, |refs|, mappings, old(result.validatorErrors));
          return;
        case Returned(e) =>
          if e != "" {
            result.AddValidatorError(rule.value.name, e);
          }
      }
      i := i + 1;
    }
  }

  /** Once aborted, the rule loop stays as it was. */
  lemma {:induction false} RunStaysAborted(refs: seq<string>, m: nat, n: nat, mappings: map<string, RuleMapping>,
                                           errors0: map<string, string>)
    requires m <= n <= |refs|
    requires Run(refs, m, mappings, errors0).aborted.Some?
    ensures Run(refs, n, mappings, errors0) == Run(refs, m, mappings, errors0)
    decreases n - m
  {
    if m < n {
      RunStaysAborted(refs, m, n - 1, mappings, errors0);
    }
  }
}
