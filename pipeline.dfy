/** The submission orchestrator (src/pipeline/processFormSubmission.ts):
    the validation gate, then for every enabled endpoint a payload built field
    by field and delivered under retry, with the outcome recorded in the
    shared metrics. Endpoints are processed one after another. */
module Pipeline {
  import opened JsValues
  import opened Config
  import opened Transformer
  import opened Validator
  import opened Retry
  import opened Metrics
  import opened JsText

  /** The JSON body posted to an endpoint. */
  type Payload = map<string, Value>

  /** The HTTP delivery: the answer to the n-th POST (from 0) of a payload to
      a URL; an Err is a rejected request. */
  type Poster = (string, Payload, nat) -> Result<Value>

  // ---------------------------------------------------------------------------
  // One field

  /** form[field] ?? config.defaults?.[field]. */
  function ResolveRaw(form: Submission, defaults: map<string, Value>, field: string): Value
  {
    var v := FieldValue(form, field);
    if IsNullish(v) then (if field in defaults then defaults[field] else Undefined) else v
  }

  /** The form value is used unless it is null or undefined; then the
      customer default, or undefined when there is none. */
  lemma RawValueSource(form: Submission, defaults: map<string, Value>, field: string)
    ensures !IsNullish(FieldValue(form, field)) ==> ResolveRaw(form, defaults, field) == FieldValue(form, field)
    ensures IsNullish(FieldValue(form, field)) && field in defaults ==> ResolveRaw(form, defaults, field) == defaults[field]
    ensures ResolveRaw(form, defaults, field).Undefined? <==>
      (IsNullish(FieldValue(form, field)) && field !in defaults)
      || (IsNullish(FieldValue(form, field)) && field in defaults && defaults[field].Undefined?)
  {
  }

  /** The endpoint has an inclusion predicate for the field and it rejects
      the form. */
  predicate Excluded(form: Submission, endpoint: EndpointConfig, field: string) {
    field in endpoint.includeIf && !endpoint.includeIf[field](form)
  }

  /** The transform an endpoint configures for a field, applied to the raw
      value: a chain step by step, a single "llm" through the extraction
      service, another non-empty identifier through applyCustomTransform, and
      an absent entry or an empty identifier not at all. */
  function FieldTransform(field: string, raw: Value, transformations: map<string, TransformationPipeline>, ext: Externals): Result<Value>
  {
    if field !in transformations then Ok(raw)
    else
      match transformations[field]
      case Chain(steps) => RunChain(field, raw, steps, ext)
      case Single(step) =>
        if step == "llm" then ext.extract(field, raw)
        else if step != "" then ApplyCustomTransform(raw, step, ext)
        else Ok(raw)
  }

  /** The orchestrator's dispatch agrees with the chain evaluator: every
      configured transform is the chain of its steps, and no transform is
      the empty chain. */
  lemma FieldTransformIsChain(field: string, raw: Value, transformations: map<string, TransformationPipeline>, ext: Externals)
    ensures field in transformations ==>
      FieldTransform(field, raw, transformations, ext) == RunChain(field, raw, StepList(transformations[field]), ext)
    ensures field !in transformations ==> FieldTransform(field, raw, transformations, ext) == RunChain(field, raw, [], ext)
  {
    if field in transformations && transformations[field].Single? {
      var step := transformations[field].step;
      assert [step][1..] == [];
      if step == "" {
        UnknownStepIsIdentity(field, raw, step, ext);
      }
    }
  }

  /** The payload after a field's transformed value is stored: an object
      (not an array) is merged key by key, later keys overwriting; null
      merges nothing (Object.assign skips it); anything else is stored under
      the field's name. */
  function Merge(payload: Payload, field: string, v: Value): Payload
  {
    match v
    case Obj(fields) => payload + fields
    case Null => payload
    case _ => payload[field := v]
  }

  lemma MergeKeys(payload: Payload, field: string, v: Value, key: string)
    ensures v.Obj? ==> (key in Merge(payload, field, v) <==> key in payload || key in v.fields)
    ensures v.Obj? && key in v.fields ==> Merge(payload, field, v)[key] == v.fields[key]
    ensures v.Obj? && key !in v.fields && key in payload ==> Merge(payload, field, v)[key] == payload[key]
    ensures v.Null? ==> Merge(payload, field, v) == payload
    ensures !v.Obj? && !v.Null? ==> field in Merge(payload, field, v) && Merge(payload, field, v)[field] == v
    ensures !v.Obj? && !v.Null? && key != field ==>
      (key in Merge(payload, field, v) <==> key in payload)
      && (key in payload ==> Merge(payload, field, v)[key] == payload[key])
  {
  }

  /** A field configured with the chain ["llm", "splitName"] whose extraction
      answers a three-word name (such as "LLM Cleaned Notes") puts the first
      word under "firstName" and the other two under "lastName". */
  lemma LlmThenSplitNameMerged(payload: Payload, field: string, raw: Value, transformations: map<string, TransformationPipeline>,
                               ext: Externals, a: string, b: string, c: string)
    requires field in transformations && transformations[field] == Chain(["llm", "splitName"])
    requires a != [] && c != [] && !IsWhitespace(a[0]) && !IsWhitespace(c[|c| - 1])
    requires ' ' !in a && ' ' !in b && ' ' !in c
    requires ext.extract(field, raw) == Ok(Str(a + " " + b + " " + c))
    ensures FieldTransform(field, raw, transformations, ext).Ok?
    ensures var merged := Merge(payload, field, FieldTransform(field, raw, transformations, ext).value);
      && "firstName" in merged && merged["firstName"] == Str(a)
      && "lastName" in merged && merged["lastName"] == Str(b + " " + c)
  {
    var name := a + " " + b + " " + c;
    var parts := FullNamePartsValue(FullNameParts(a, b + " " + c));
    SplitFullNameThreeWords(a, b, c);
    assert ApplyStep(field, Str(name), "splitName", ext) == Ok(parts);
    assert ["splitName"][1..] == [];
    assert RunChain(field, Str(name), ["splitName"], ext) == Ok(parts);
    assert ["llm", "splitName"][1..] == ["splitName"];
    assert RunChain(field, raw, ["llm", "splitName"], ext) == Ok(parts);
    assert "firstName"[0] != "lastName"[0];
    assert parts.fields["firstName"] == Str(a) && parts.fields["lastName"] == Str(b + " " + c);
    MergeKeys(payload, field, parts, "firstName");
    MergeKeys(payload, field, parts, "lastName");
  }

  // ---------------------------------------------------------------------------
  // One payload

  /** The payload after one more field: unchanged if the field is excluded,
      failed if its transform throws. */
  function AddField(form: Submission, config: CustomerConfig, endpoint: EndpointConfig, payload: Payload, field: string, ext: Externals): Result<Payload>
  {
    if Excluded(form, endpoint, field) then Ok(payload)
    else
      match FieldTransform(field, ResolveRaw(form, config.defaults, field), endpoint.transformations, ext)
      case Err(e) => Err(e)
      case Ok(v) => Ok(Merge(payload, field, v))
  }

  /** The payload built from the given fields, in order, starting empty; the
      first transform that throws abandons it. */
  function PayloadOf(form: Submission, config: CustomerConfig, endpoint: EndpointConfig, fields: seq<string>, ext: Externals): Result<Payload>
  {
    if fields == [] then Ok(map[])
    else
      match PayloadOf(form, config, endpoint, fields[..|fields| - 1], ext)
      case Err(e) => Err(e)
      case Ok(p) => AddField(form, config, endpoint, p, fields[|fields| - 1], ext)
  }

  /** The fields the endpoint's inclusion predicates let through. */
  function Kept(form: Submission, endpoint: EndpointConfig, fields: seq<string>): seq<string>
  {
    if fields == [] then []
    else
      Kept(form, endpoint, fields[..|fields| - 1])
      + (if Excluded(form, endpoint, fields[|fields| - 1]) then [] else [fields[|fields| - 1]])
  }

  /** A field is kept exactly when it is one of the endpoint's fields and its
      inclusion predicate does not reject the form. */
  lemma {:induction false} KeptFields(form: Submission, endpoint: EndpointConfig, fields: seq<string>)
    ensures forall f :: f in Kept(form, endpoint, fields) <==> f in fields && !Excluded(form, endpoint, f)
  {
    if fields != [] {
      var front := fields[..|fields| - 1];
      KeptFields(form, endpoint, front);
      assert fields == front + [fields[|fields| - 1]];
    }
  }

  /** An excluded field plays no part in the payload, even when it has a
      default: the payload is the one built from the kept fields alone. */
  lemma {:induction false} ExcludedFieldsIgnored(form: Submission, config: CustomerConfig, endpoint: EndpointConfig, fields: seq<string>, ext: Externals)
    ensures PayloadOf(form, config, endpoint, fields, ext) == PayloadOf(form, config, endpoint, Kept(form, endpoint, fields), ext)
  {
    if fields != [] {
      var front := fields[..|fields| - 1];
      var last := fields[|fields| - 1];
      ExcludedFieldsIgnored(form, config, endpoint, front, ext);
      var kept := Kept(form, endpoint, front);
      var before := PayloadOf(form, config, endpoint, front, ext);
      if Excluded(form, endpoint, last) {
        assert Kept(form, endpoint, fields) == kept;
      } else {
        assert Kept(form, endpoint, fields) == kept + [last];
        assert (kept + [last])[..|kept + [last]| - 1] == kept;
        assert PayloadOf(form, config, endpoint, kept + [last], ext)
            == if before.Err? then before else AddField(form, config, endpoint, before.value, last, ext);
      }
    }
  }

  /** The field's transform succeeds and writes the key: under the field's
      own name, or as a key of the object it produced. */
  predicate ProducesKey(form: Submission, config: CustomerConfig, endpoint: EndpointConfig, field: string, ext: Externals, key: string) {
    var t := FieldTransform(field, ResolveRaw(form, config.defaults, field), endpoint.transformations, ext);
    t.Ok? && !t.value.Null? && (if t.value.Obj? then key in t.value.fields else key == field)
  }

  /** Every key of a built payload comes from a kept field: it is the field's
      own name, or a key of the object its transform produced. */
  lemma {:induction false} PayloadKeyOrigin(form: Submission, config: CustomerConfig, endpoint: EndpointConfig, fields: seq<string>, ext: Externals, key: string)
    requires PayloadOf(form, config, endpoint, fields, ext).Ok?
    requires key in PayloadOf(form, config, endpoint, fields, ext).value
    ensures exists i :: 0 <= i < |fields| && !Excluded(form, endpoint, fields[i]) && ProducesKey(form, config, endpoint, fields[i], ext, key)
  {
    var front := fields[..|fields| - 1];
    var last := fields[|fields| - 1];
    var p := PayloadOf(form, config, endpoint, front, ext).value;
    if !Excluded(form, endpoint, last) && ProducesKey(form, config, endpoint, last, ext, key) {
      assert fields[|fields| - 1] == last;
    } else {
      if !Excluded(form, endpoint, last) {
        var t := FieldTransform(last, ResolveRaw(form, config.defaults, last), endpoint.transformations, ext);
        MergeKeys(p, last, t.value, key);
      }
      PayloadKeyOrigin(form, config, endpoint, front, ext, key);
      var i :| 0 <= i < |front| && !Excluded(form, endpoint, front[i]) && ProducesKey(form, config, endpoint, front[i], ext, key);
      assert fields[i] == front[i];
    }
  }

  /** A kept field whose transform writes a key leaves that key in the built
      payload: later fields may overwrite it but never remove it. */
  lemma {:induction false} PayloadKeyPresent(form: Submission, config: CustomerConfig, endpoint: EndpointConfig, fields: seq<string>, ext: Externals, key: string, i: nat)
    requires PayloadOf(form, config, endpoint, fields, ext).Ok?
    requires i < |fields| && !Excluded(form, endpoint, fields[i]) && ProducesKey(form, config, endpoint, fields[i], ext, key)
    ensures key in PayloadOf(form, config, endpoint, fields, ext).value
  {
    var front := fields[..|fields| - 1];
    var last := fields[|fields| - 1];
    var p := PayloadOf(form, config, endpoint, front, ext).value;
    if !Excluded(form, endpoint, last) {
      var t := FieldTransform(last, ResolveRaw(form, config.defaults, last), endpoint.transformations, ext);
      MergeKeys(p, last, t.value, key);
    }
    if i < |fields| - 1 {
      assert front[i] == fields[i];
      PayloadKeyPresent(form, config, endpoint, front, ext, key, i);
    }
  }

  /** The value a field's transform writes under a key it produces. */
  function WrittenValue(form: Submission, config: CustomerConfig, endpoint: EndpointConfig, field: string, ext: Externals, key: string): Value
    requires ProducesKey(form, config, endpoint, field, ext, key)
  {
    var t := FieldTransform(field, ResolveRaw(form, config.defaults, field), endpoint.transformations, ext).value;
    if t.Obj? then t.fields[key] else t
  }

  /** The last write wins: a key holds the value written by the last kept
      field whose transform produces it. */
  lemma {:induction false} PayloadLastWriter(form: Submission, config: CustomerConfig, endpoint: EndpointConfig, fields: seq<string>, ext: Externals, key: string, i: nat)
    requires PayloadOf(form, config, endpoint, fields, ext).Ok?
    requires i < |fields| && !Excluded(form, endpoint, fields[i]) && ProducesKey(form, config, endpoint, fields[i], ext, key)
    requires forall j :: i < j < |fields| && !Excluded(form, endpoint, fields[j]) ==> !ProducesKey(form, config, endpoint, fields[j], ext, key)
    ensures key in PayloadOf(form, config, endpoint, fields, ext).value
    ensures PayloadOf(form, config, endpoint, fields, ext).value[key] == WrittenValue(form, config, endpoint, fields[i], ext, key)
  {
    var front := fields[..|fields| - 1];
    var last := fields[|fields| - 1];
    var p := PayloadOf(form, config, endpoint, front, ext).value;
    if !Excluded(form, endpoint, last) {
      var t := FieldTransform(last, ResolveRaw(form, config.defaults, last), endpoint.transformations, ext);
      MergeKeys(p, last, t.value, key);
    }
    if i < |fields| - 1 {
      assert front[i] == fields[i];
      assert forall j :: i < j < |front| ==> front[j] == fields[j];
      PayloadLastWriter(form, config, endpoint, front, ext, key, i);
    }
  }

  /** The transform dispatch of one field. A chain runs step by step, as
      applyTransformPipeline does. */
  method TransformField(field: string, rawValue: Value, transformations: map<string, TransformationPipeline>, ext: Externals)
    returns (transformed: Result<Value>)
    ensures transformed == FieldTransform(field, rawValue, transformations, ext)
  {
    if field in transformations {
      var pipeline := transformations[field];
      if pipeline.Chain? {
        transformed := ApplyTransformPipeline(field, rawValue, pipeline, ext);
      } else if pipeline.step == "llm" {
        transformed := ext.extract(field, rawValue);
      } else if pipeline.step != "" {
        transformed := ApplyCustomTransform(rawValue, pipeline.step, ext);
      } else {
        transformed := Ok(rawValue);
      }
    } else {
      transformed := Ok(rawValue);
    }
  }

  /** PayloadOf on one more field of the list. */
  lemma PayloadStep(form: Submission, config: CustomerConfig, endpoint: EndpointConfig, fields: seq<string>, i: nat, ext: Externals)
    requires i < |fields|
    ensures PayloadOf(form, config, endpoint, fields[..i + 1], ext)
         == if PayloadOf(form, config, endpoint, fields[..i], ext).Err? then PayloadOf(form, config, endpoint, fields[..i], ext)
            else AddField(form, config, endpoint, PayloadOf(form, config, endpoint, fields[..i], ext).value, fields[i], ext)
  {
    assert fields[..i + 1][..i] == fields[..i];
  }

  /** Building a payload, field by field (the `for … of endpoint.fields` loop). */
  method BuildPayload(form: Submission, config: CustomerConfig, endpoint: EndpointConfig, ext: Externals)
    returns (r: Result<Payload>)
    ensures r == PayloadOf(form, config, endpoint, endpoint.fields, ext)
  {
    var fields := endpoint.fields;
    var payload: Payload := map[];
    var i := 0;
    while i < |fields|
      invariant 0 <= i <= |fields|
      invariant PayloadOf(form, config, endpoint, fields[..i], ext) == Ok(payload)
    {
      PayloadStep(form, config, endpoint, fields, i, ext);
      var field := fields[i];
      var rawValue := ResolveRaw(form, config.defaults, field);
      if Excluded(form, endpoint, field) {
        i := i + 1;
        continue;
      }
      var transformed := TransformField(field, rawValue, endpoint.transformations, ext);
      if transformed.Err? {
        FailureStays(form, config, endpoint, fields, i + 1, ext, transformed.error);
        return Err(transformed.error);
      }
      payload := Merge(payload, field, transformed.value);
      i := i + 1;
    }
    assert fields[..i] == fields;
    r := Ok(payload);
  }

  /** Once a transform has thrown, the payload stays failed with that error. */
  lemma {:induction false} FailureStays(form: Submission, config: CustomerConfig, endpoint: EndpointConfig, fields: seq<string>, n: nat, ext: Externals, e: string)
    requires n <= |fields|
    requires PayloadOf(form, config, endpoint, fields[..n], ext) == Err(e)
    ensures PayloadOf(form, config, endpoint, fields, ext) == Err(e)
    decreases |fields| - n
  {
    if n < |fields| {
      assert fields[..n + 1][..n] == fields[..n];
      FailureStays(form, config, endpoint, fields, n + 1, ext, e);
    } else {
      assert fields[..n] == fields;
    }
  }

  // ---------------------------------------------------------------------------
  // One endpoint

  /** The retry parameters: the endpoint's options, each defaulting when
      absent (3 retries, 500 ms, factor 2). */
  datatype RetrySettings = RetrySettings(retries: int, delayMs: real, backoffFactor: real)

  function SettingsOf(options: Option<RetryOptions>): RetrySettings
  {
    var o := if options.Some? then options.value else RetryOptions(None, None, None);
    RetrySettings(
      if o.retries.Some? then o.retries.value else 3,
      if o.delayMs.Some? then o.delayMs.value else 500.0,
      if o.backoffFactor.Some? then o.backoffFactor.value else 2.0)
  }

  /** Without options, or with an option missing, the defaults apply; a
      given option is used as is. */
  lemma RetryDefaults(options: Option<RetryOptions>)
    ensures SettingsOf(None) == RetrySettings(3, 500.0, 2.0)
    ensures SettingsOf(Some(RetryOptions(None, None, None))) == RetrySettings(3, 500.0, 2.0)
    ensures options.Some? && options.value.retries.Some? ==> SettingsOf(options).retries == options.value.retries.value
    ensures options.Some? && options.value.delayMs.Some? ==> SettingsOf(options).delayMs == options.value.delayMs.value
    ensures options.Some? && options.value.backoffFactor.Some? ==> SettingsOf(options).backoffFactor == options.value.backoffFactor.value
  {
  }

  /** The default settings wait 500, 1000 and 2000 ms between four calls. */
  lemma DefaultWaits()
    ensures Delay(0, 500.0, 2.0) == 500.0 && Delay(1, 500.0, 2.0) == 1000.0 && Delay(2, 500.0, 2.0) == 2000.0
  {
    assert Power(2.0, 1) == 2.0;
    assert Power(2.0, 2) == 4.0;
  }

  /** The calls of the POST to an endpoint with a fixed payload. */
  function PostCalls(post: Poster, url: string, payload: Payload): nat -> Result<Value>
  {
    (n: nat) => post(url, payload, n)
  }

  /** What became of an endpoint: its payload could not be built, or it was
      posted under retry. */
  datatype Delivery = TransformFailed(error: string) | Posted(payload: Payload, attempts: RetryRun<Value>)

  datatype EndpointOutcome = EndpointOutcome(name: string, delivery: Delivery)

  /** The task reaches recordSuccess only when the post resolved to a
      response whose status can be read for the log line; reading it from
      null or undefined throws, and the task records a failure instead. */
  predicate Succeeded(o: EndpointOutcome) {
    o.delivery.Posted? && o.delivery.attempts.result.Ok? && !IsNullish(o.delivery.attempts.result.value)
  }

  /** The endpoint task: build the payload, post it under retry. */
  function EndpointSpec(form: Submission, config: CustomerConfig, endpoint: EndpointConfig, ext: Externals, post: Poster): EndpointOutcome
  {
    match PayloadOf(form, config, endpoint, endpoint.fields, ext)
    case Err(e) => EndpointOutcome(endpoint.name, TransformFailed(e))
    case Ok(p) =>
      var s := SettingsOf(endpoint.retryOptions);
      EndpointOutcome(endpoint.name, Posted(p, RetrySpec(PostCalls(post, endpoint.url, p), s.retries, s.delayMs, s.backoffFactor)))
  }

  /** One retry increment per hook event. */
  function HookUpdates(events: seq<Event>, name: string): seq<MetricsUpdate>
  {
    if events == [] then []
    else
      HookUpdates(events[..|events| - 1], name)
      + (if events[|events| - 1].RetryHook? then [RetryIncremented(name)] else [])
  }

  /** The metrics updates of one endpoint: the retry increments its hook
      fired, then exactly one success or failure. */
  function EndpointUpdates(o: EndpointOutcome): seq<MetricsUpdate>
  {
    var hooks := if o.delivery.Posted? then HookUpdates(o.delivery.attempts.events, o.name) else [];
    hooks + [if Succeeded(o) then SuccessRecorded else FailureRecorded]
  }

  /** The onRetry hook's calls, in the order the retry loop fired them. */
  method ReplayRetryHooks(events: seq<Event>, name: string, metrics: RunMetrics)
    modifies metrics
    ensures metrics.Data() == ApplyAll(old(metrics.Data()), HookUpdates(events, name))
  {
    var i := 0;
    while i < |events|
      invariant 0 <= i <= |events|
      invariant metrics.Data() == ApplyAll(old(metrics.Data()), HookUpdates(events[..i], name))
    {
      assert events[..i + 1][..i] == events[..i];
      ghost var done := HookUpdates(events[..i], name);
      if events[i].RetryHook? {
        assert HookUpdates(events[..i + 1], name) == done + [RetryIncremented(name)];
        metrics.IncrementRetry(name);
        ApplyAllAppend(old(metrics.Data()), done, [RetryIncremented(name)]);
        assert [RetryIncremented(name)][..0] == [];
      } else {
        assert HookUpdates(events[..i + 1], name) == done + [];
        assert done + [] == done;
      }
      i := i + 1;
    }
    assert events[..i] == events;
  }

  /** One endpoint task, with its effect on the metrics. */
  method DeliverToEndpoint(form: Submission, config: CustomerConfig, endpoint: EndpointConfig, ext: Externals, post: Poster, metrics: RunMetrics)
    returns (o: EndpointOutcome)
    modifies metrics
    ensures o == EndpointSpec(form, config, endpoint, ext, post)
    ensures metrics.Data() == ApplyAll(old(metrics.Data()), EndpointUpdates(o))
  {
    var built := BuildPayload(form, config, endpoint, ext);
    if built.Err? {
      metrics.RecordFailure();
      o := EndpointOutcome(endpoint.name, TransformFailed(built.error));
      assert EndpointUpdates(o) == [FailureRecorded];
      return;
    }
    var payload := built.value;
    var s := SettingsOf(endpoint.retryOptions);
    var attempts := Retry.Retry(PostCalls(post, endpoint.url, payload), s.retries, s.delayMs, s.backoffFactor);
    ghost var before := metrics.Data();
    ReplayRetryHooks(attempts.events, endpoint.name, metrics);
    o := EndpointOutcome(endpoint.name, Posted(payload, attempts));
    ghost var hooks := HookUpdates(attempts.events, endpoint.name);
    ghost var recorded := if attempts.result.Ok? && !IsNullish(attempts.result.value) then SuccessRecorded else FailureRecorded;
    if attempts.result.Ok? && !IsNullish(attempts.result.value) {
      metrics.RecordSuccess();
    } else {
      metrics.RecordFailure();
    }
    ApplyAllAppend(before, hooks, [recorded]);
    assert [recorded][..0] == [];
  }

  // ---------------------------------------------------------------------------
  // One submission

  /** The outcome of each endpoint, in order. */
  function OutcomesOf(form: Submission, config: CustomerConfig, endpoints: seq<EndpointConfig>, ext: Externals, post: Poster): seq<EndpointOutcome>
  {
    if endpoints == [] then []
    else
      OutcomesOf(form, config, endpoints[..|endpoints| - 1], ext, post)
      + [EndpointSpec(form, config, endpoints[|endpoints| - 1], ext, post)]
  }

  /** A submission rejected by validation, or delivered to every endpoint. */
  datatype Run = Rejected(errors: seq<string>) | Delivered(outcomes: seq<EndpointOutcome>)

  /** processFormSubmission. `isValidDob` stands for isValidDOB. */
  function RunSpec(form: Submission, config: CustomerConfig, isValidDob: Value -> bool, ext: Externals, post: Poster): Run
  {
    var errors := Violations(form, config.validationRules, isValidDob);
    if |errors| > 0 then Rejected(errors)
    else Delivered(OutcomesOf(form, config, config.enabledEndpoints, ext, post))
  }

  function OutcomeUpdates(outcomes: seq<EndpointOutcome>): seq<MetricsUpdate>
  {
    if outcomes == [] then []
    else OutcomeUpdates(outcomes[..|outcomes| - 1]) + EndpointUpdates(outcomes[|outcomes| - 1])
  }

  /** The metrics updates of a run: a rejected submission records one
      failure; a delivered one records each endpoint's updates and then its
      duration. */
  function RunUpdates(run: Run, duration: int): seq<MetricsUpdate>
  {
    match run
    case Rejected(_) => [FailureRecorded]
    case Delivered(outcomes) => OutcomeUpdates(outcomes) + [TimerEnded(duration)]
  }

  /** OutcomesOf on one more endpoint of the list. */
  lemma OutcomesStep(form: Submission, config: CustomerConfig, endpoints: seq<EndpointConfig>, i: nat, ext: Externals, post: Poster)
    requires i < |endpoints|
    ensures OutcomesOf(form, config, endpoints[..i + 1], ext, post)
         == OutcomesOf(form, config, endpoints[..i], ext, post) + [EndpointSpec(form, config, endpoints[i], ext, post)]
  {
    assert endpoints[..i + 1][..i] == endpoints[..i];
  }

  /** OutcomeUpdates of one more outcome. */
  lemma OutcomeUpdatesStep(outcomes: seq<EndpointOutcome>, o: EndpointOutcome)
    ensures OutcomeUpdates(outcomes + [o]) == OutcomeUpdates(outcomes) + EndpointUpdates(o)
  {
    assert (outcomes + [o])[..|outcomes|] == outcomes;
  }

  /** The endpoint tasks, one after the other. */
  method DeliverAll(form: Submission, config: CustomerConfig, endpoints: seq<EndpointConfig>, ext: Externals,
                    post: Poster, metrics: RunMetrics)
    returns (outcomes: seq<EndpointOutcome>)
    modifies metrics
    ensures outcomes == OutcomesOf(form, config, endpoints, ext, post)
    ensures metrics.Data() == ApplyAll(old(metrics.Data()), OutcomeUpdates(outcomes))
  {
    outcomes := [];
    var i := 0;
    while i < |endpoints|
      invariant 0 <= i <= |endpoints|
      invariant outcomes == OutcomesOf(form, config, endpoints[..i], ext, post)
      invariant metrics.Data() == ApplyAll(old(metrics.Data()), OutcomeUpdates(outcomes))
    {
      OutcomesStep(form, config, endpoints, i, ext, post);
      var o := DeliverToEndpoint(form, config, endpoints[i], ext, post, metrics);
      ApplyAllAppend(old(metrics.Data()), OutcomeUpdates(outcomes), EndpointUpdates(o));
      OutcomeUpdatesStep(outcomes, o);
      outcomes := outcomes + [o];
      i := i + 1;
    }
    assert endpoints[..i] == endpoints;
  }

  /** A rejected run's only update is the failure it records. */
  lemma RejectedUpdates(d: MetricsData, errors: seq<string>, duration: int)
    ensures ApplyAll(d, RunUpdates(Rejected(errors), duration)) == Apply(d, FailureRecorded)
  {
    assert [FailureRecorded][..0] == [];
  }

  /** Recording the time after the endpoints' updates completes a delivered run's updates. */
  lemma TimedUpdates(d: MetricsData, delivered: MetricsData, timed: MetricsData, outcomes: seq<EndpointOutcome>, duration: int)
    requires delivered == ApplyAll(d, OutcomeUpdates(outcomes))
    requires timed == Apply(delivered, TimerEnded(duration))
    ensures timed == ApplyAll(d, RunUpdates(Delivered(outcomes), duration))
  {
    var us := OutcomeUpdates(outcomes) + [TimerEnded(duration)];
    assert us[..|us| - 1] == OutcomeUpdates(outcomes);
  }

  /** The tasks of an accepted submission, then the timing. */
  method DeliverAndTime(form: Submission, config: CustomerConfig, ext: Externals, post: Poster,
                        metrics: RunMetrics, start: int, now: int)
    returns (outcomes: seq<EndpointOutcome>)
    modifies metrics
    ensures outcomes == OutcomesOf(form, config, config.enabledEndpoints, ext, post)
    ensures metrics.Data() == ApplyAll(old(metrics.Data()), RunUpdates(Delivered(outcomes), now - start))
  {
    outcomes := DeliverAll(form, config, config.enabledEndpoints, ext, post, metrics);
    ghost var delivered := metrics.Data();
    var duration := metrics.EndTimer(start, now);
    TimedUpdates(old(metrics.Data()), delivered, metrics.Data(), outcomes, now - start);
  }

  /** processFormSubmission: validate; on failure record it and stop; else run
      every endpoint task and record the time since `start` (`now` stands
      for the clock when the tasks have finished). */
  method ProcessFormSubmission(form: Submission, config: CustomerConfig, isValidDob: Value -> bool, ext: Externals,
                               post: Poster, metrics: RunMetrics, start: int, now: int)
    returns (run: Run)
    modifies metrics
    ensures run == RunSpec(form, config, isValidDob, ext, post)
    ensures metrics.Data() == ApplyAll(old(metrics.Data()), RunUpdates(run, now - start))
  {
    var errors := ValidateSubmission(form, config.validationRules, isValidDob);
    if |errors| > 0 {
      metrics.RecordFailure();
      run := Rejected(errors);
      RejectedUpdates(old(metrics.Data()), errors, now - start);
      return;
    }
    var outcomes := DeliverAndTime(form, config, ext, post, metrics, start, now);
    run := Delivered(outcomes);
  }

  // ---------------------------------------------------------------------------
  // Properties of a run

  /** The gate: the submission is rejected exactly when a check or a rule
      fails, and then its errors are the validation messages. */
  lemma GateRejectsIff(form: Submission, config: CustomerConfig, isValidDob: Value -> bool, ext: Externals, post: Poster)
    ensures RunSpec(form, config, isValidDob, ext, post).Rejected? <==>
      (exists k :: 0 <= k < CheckCount && !CheckResults(form, isValidDob)[k])
      || (exists r :: r in config.validationRules && !RuleHolds(form, r))
    ensures RunSpec(form, config, isValidDob, ext, post).Rejected? ==>
      RunSpec(form, config, isValidDob, ext, post).errors == Violations(form, config.validationRules, isValidDob)
  {
    ViolationsEmptyIff(form, config.validationRules, isValidDob);
  }

  /** A rejected submission records exactly one failure, posts nothing and
      does not time the run. */
  lemma RejectedRunEffects(run: Run, duration: int, d: MetricsData)
    requires run.Rejected?
    ensures ApplyAll(d, RunUpdates(run, duration)).failureCount == d.failureCount + 1
    ensures ApplyAll(d, RunUpdates(run, duration)).totalSubmissions == d.totalSubmissions + 1
    ensures ApplyAll(d, RunUpdates(run, duration)).successCount == d.successCount
    ensures ApplyAll(d, RunUpdates(run, duration)).retries == d.retries
    ensures ApplyAll(d, RunUpdates(run, duration)).submissionTimes == d.submissionTimes
  {
    assert RunUpdates(run, duration)[..0] == [];
  }

  /** The outcomes follow the endpoints one to one, and each is the endpoint's
      own task: one endpoint's failure does not stop or change another's. */
  lemma {:induction false} OneOutcomePerEndpoint(form: Submission, config: CustomerConfig, endpoints: seq<EndpointConfig>, ext: Externals, post: Poster)
    ensures |OutcomesOf(form, config, endpoints, ext, post)| == |endpoints|
    ensures forall i :: 0 <= i < |endpoints| ==>
      OutcomesOf(form, config, endpoints, ext, post)[i] == EndpointSpec(form, config, endpoints[i], ext, post)
  {
    if endpoints != [] {
      OneOutcomePerEndpoint(form, config, endpoints[..|endpoints| - 1], ext, post);
    }
  }

  /** The replayed hook events are retry increments of the endpoint, one per
      firing of the hook, and nothing else. */
  lemma {:induction false} HookUpdatesCounts(events: seq<Event>, name: string, other: string)
    ensures OutcomeCount(HookUpdates(events, name)) == 0 && TimerCount(HookUpdates(events, name)) == 0
    ensures IncrementCount(HookUpdates(events, name), other) == if other == name then |HooksOf(events)| else 0
  {
    if events != [] {
      var front := events[..|events| - 1];
      var last := events[|events| - 1];
      HookUpdatesCounts(front, name, other);
      var tail: seq<MetricsUpdate> := if last.RetryHook? then [RetryIncremented(name)] else [];
      CountsAppend(HookUpdates(front, name), tail, other);
      assert front + [last] == events;
      HooksAppend(front, [last]);
      assert HooksOf([last]) == if last.RetryHook? then [last.n] else [];
      if last.RetryHook? {
        assert tail[..0] == [];
      }
    }
  }

  /** The number of times an endpoint's retry hook fired. */
  function Reattempts(o: EndpointOutcome): nat
  {
    if o.delivery.Posted? then |HooksOf(o.delivery.attempts.events)| else 0
  }

  /** The re-attempts made by the endpoints of the given name. */
  function ReattemptsFor(outcomes: seq<EndpointOutcome>, name: string): nat
  {
    if outcomes == [] then 0
    else
      ReattemptsFor(outcomes[..|outcomes| - 1], name)
      + (if outcomes[|outcomes| - 1].name == name then Reattempts(outcomes[|outcomes| - 1]) else 0)
  }

  /** Each endpoint records exactly one outcome, and raises its retry counter
      once per re-attempt. */
  lemma EndpointUpdatesCounts(o: EndpointOutcome, name: string)
    ensures OutcomeCount(EndpointUpdates(o)) == 1 && TimerCount(EndpointUpdates(o)) == 0
    ensures IncrementCount(EndpointUpdates(o), name) == if o.name == name then Reattempts(o) else 0
  {
    var hooks := if o.delivery.Posted? then HookUpdates(o.delivery.attempts.events, o.name) else [];
    var tail := [if Succeeded(o) then SuccessRecorded else FailureRecorded];
    if o.delivery.Posted? {
      HookUpdatesCounts(o.delivery.attempts.events, o.name, name);
    }
    CountsAppend(hooks, tail, name);
    assert tail[..0] == [];
  }

  /** After a passing gate, successCount + failureCount and totalSubmissions
      grow by exactly the number of endpoints, the run is timed once, and
      each endpoint name's retry counter grows by the re-attempts made for
      it. */
  lemma {:induction false} DeliveredRunCounts(outcomes: seq<EndpointOutcome>, duration: int, name: string)
    ensures OutcomeCount(RunUpdates(Delivered(outcomes), duration)) == |outcomes|
    ensures TimerCount(RunUpdates(Delivered(outcomes), duration)) == 1
    ensures IncrementCount(RunUpdates(Delivered(outcomes), duration), name) == ReattemptsFor(outcomes, name)
    decreases |outcomes|
  {
    if outcomes != [] {
      var front := outcomes[..|outcomes| - 1];
      DeliveredRunCounts(front, duration, name);
      CountsAppend(OutcomeUpdates(front), [TimerEnded(duration)], name);
      EndpointUpdatesCounts(outcomes[|outcomes| - 1], name);
      CountsAppend(OutcomeUpdates(front), EndpointUpdates(outcomes[|outcomes| - 1]), name);
    }
    CountsAppend(OutcomeUpdates(outcomes), [TimerEnded(duration)], name);
    assert [TimerEnded(duration)][..0] == [];
  }

  /** The metrics after a delivered run, in terms of the run. */
  lemma DeliveredRunEffects(outcomes: seq<EndpointOutcome>, duration: int, d: MetricsData, name: string)
    ensures var e := ApplyAll(d, RunUpdates(Delivered(outcomes), duration));
      && e.successCount + e.failureCount == d.successCount + d.failureCount + |outcomes|
      && e.totalSubmissions == d.totalSubmissions + |outcomes|
      && |e.submissionTimes| == |d.submissionTimes| + 1
      && e.submissionTimes[|d.submissionTimes|] == duration
      && RetryCount(e, name) == RetryCount(d, name) + ReattemptsFor(outcomes, name)
  {
    DeliveredRunCounts(outcomes, duration, name);
    ApplyAllCounts(d, RunUpdates(Delivered(outcomes), duration), name);
    ApplyAllAppend(d, OutcomeUpdates(outcomes), [TimerEnded(duration)]);
    assert [TimerEnded(duration)][..0] == [];
  }

  /** An endpoint whose payload builds and whose retries are not negative is
      posted: its first call is the POST of that payload to its URL, and the
      hook fires once per call after the first. */
  lemma FirstDeliveryAttempt(form: Submission, config: CustomerConfig, endpoint: EndpointConfig, ext: Externals, post: Poster)
    requires PayloadOf(form, config, endpoint, endpoint.fields, ext).Ok?
    requires SettingsOf(endpoint.retryOptions).retries >= 0
    ensures var o := EndpointSpec(form, config, endpoint, ext, post);
      && o.delivery.Posted?
      && o.delivery.payload == PayloadOf(form, config, endpoint, endpoint.fields, ext).value
      && o.delivery.attempts.calls >= 1
      && o.delivery.attempts.events[0] == Attempt(0)
      && (o.delivery.attempts.calls == 1 ==> o.delivery.attempts.result == post(endpoint.url, o.delivery.payload, 0))
      && Reattempts(o) == o.delivery.attempts.calls - 1
  {
    var p := PayloadOf(form, config, endpoint, endpoint.fields, ext).value;
    var s := SettingsOf(endpoint.retryOptions);
    CallBounds(PostCalls(post, endpoint.url, p), s.retries, s.delayMs, s.backoffFactor);
    var calls := RetrySpec(PostCalls(post, endpoint.url, p), s.retries, s.delayMs, s.backoffFactor).calls;
    HookPrecedesAttempt(calls, s.delayMs, s.backoffFactor);
    ScheduleProjections(calls, s.delayMs, s.backoffFactor);
  }

  /** A POST that resolves to null or undefined ends the retry loop at once,
      yet reading its status throws, so the endpoint records one failure and
      no retry. */
  lemma EmptyResponseRecordsFailure(form: Submission, config: CustomerConfig, endpoint: EndpointConfig, ext: Externals, post: Poster)
    requires PayloadOf(form, config, endpoint, endpoint.fields, ext).Ok?
    requires SettingsOf(endpoint.retryOptions).retries >= 0
    requires var first := post(endpoint.url, PayloadOf(form, config, endpoint, endpoint.fields, ext).value, 0);
      first.Ok? && IsNullish(first.value)
    ensures var o := EndpointSpec(form, config, endpoint, ext, post);
      && o.delivery.Posted? && o.delivery.attempts.calls == 1
      && !Succeeded(o) && EndpointUpdates(o) == [FailureRecorded]
  {
    var p := PayloadOf(form, config, endpoint, endpoint.fields, ext).value;
    var s := SettingsOf(endpoint.retryOptions);
    var fn := PostCalls(post, endpoint.url, p);
    SuccessAt(fn, s.retries, s.delayMs, s.backoffFactor, 0);
    var run := RetrySpec(fn, s.retries, s.delayMs, s.backoffFactor);
    assert run.events == Schedule(1, s.delayMs, s.backoffFactor);
    HookPrecedesAttempt(1, s.delayMs, s.backoffFactor);
    ScheduleProjections(1, s.delayMs, s.backoffFactor);
    HookUpdatesCounts(run.events, endpoint.name, endpoint.name);
  }

  /** An endpoint whose payload cannot be built is not posted and records a
      failure. */
  lemma TransformFailureNotPosted(form: Submission, config: CustomerConfig, endpoint: EndpointConfig, ext: Externals, post: Poster)
    requires PayloadOf(form, config, endpoint, endpoint.fields, ext).Err?
    ensures var o := EndpointSpec(form, config, endpoint, ext, post);
      o.delivery == TransformFailed(PayloadOf(form, config, endpoint, endpoint.fields, ext).error)
      && !Succeeded(o) && EndpointUpdates(o) == [FailureRecorded]
  {
  }
}
