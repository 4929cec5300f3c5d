/** The shapes of a form submission and of a customer's configuration
    (src/types/customerConfig.ts). Closures of the configuration (inclusion
    predicates, validation rules) are function-valued fields. */
module Config {
  import opened JsValues

  /** One customer's form answers, by field name. A field that is not in the
      map reads as undefined. */
  type Submission = map<string, Value>

  /** form[name]. */
  function FieldValue(form: Submission, name: string): Value
  {
    if name in form then form[name] else Undefined
  }

  /** A customer validation rule: the field it is registered under and the
      predicate of that field's value and the whole form. The predicate always
      answers; a customer function that throws is not modelled. */
  datatype ValidationRule = ValidationRule(field: string, holds: (Value, Submission) -> bool)

  /** A single transform-step identifier or an ordered chain of them. */
  datatype TransformationPipeline = Single(step: string) | Chain(steps: seq<string>)

  /** Optional retry tuning of an endpoint; None stands for an absent property. */
  datatype RetryOptions = RetryOptions(retries: Option<int>, delayMs: Option<real>, backoffFactor: Option<real>)

  /** One delivery target. An absent `transformations` or `includeIf` object is
      an empty map. Inclusion predicates always answer; one that throws is not
      modelled. */
  datatype EndpointConfig = EndpointConfig(
    name: string,
    url: string,
    fields: seq<string>,
    transformations: map<string, TransformationPipeline>,
    includeIf: map<string, Submission -> bool>,
    retryOptions: Option<RetryOptions>)

  /** A customer's configuration. Absent `defaults` is an empty map; absent
      `validationRules` an empty sequence; rules keep the insertion order that
      Object.entries reports. A record yields each field name at most once;
      the sequence may repeat one, and the validation lemmas hold either way
      (a field's message is reported once per failing rule under it). */
  datatype CustomerConfig = CustomerConfig(
    customerId: string,
    enabledEndpoints: seq<EndpointConfig>,
    defaults: map<string, Value>,
    validationRules: seq<ValidationRule>)
}
