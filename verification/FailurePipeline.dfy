/** packages/common/src/converter/failure-converter.ts and internal-non-workflow/codec-helpers.ts: errors become
    failures, pass through a list of payload codecs and become errors again. */
module FailurePipeline {
  import opened StackTraces
  import opened Wrappers

  // ---- values, payloads, converters and codecs

  datatype Value =
    | Undefined | Null | Bool(flag: bool) | Number(number: int) | Text(text: string)
    | Record(fields: map<string, Value>)

  predicate Truthy(v: Value) { v !in {Undefined, Null, Bool(false), Number(0), Text("")} }

  datatype Payload = Payload(metadata: map<string, seq<int>>, data: seq<int>)

  datatype PayloadConverter = PayloadConverter(toPayload: Value -> Payload, fromPayload: Payload -> Value)

  ghost predicate Faithful(c: PayloadConverter) {
    forall v :: c.fromPayload(c.toPayload(v)) == v
  }

  datatype Codec = Codec(encode: seq<Payload> -> seq<Payload>, decode: seq<Payload> -> seq<Payload>)

  ghost predicate Invertible(codecs: seq<Codec>) {
    forall k, ps :: 0 <= k < |codecs| ==> |codecs[k].encode(ps)| == |ps| && codecs[k].decode(codecs[k].encode(ps)) == ps
  }

  /** Through each codec, the first codec first. */
  function EncodeAll(codecs: seq<Codec>, payloads: seq<Payload>): seq<Payload> {
    if codecs == [] then payloads else codecs[|codecs| - 1].encode(EncodeAll(codecs[..|codecs| - 1], payloads))
  }

  /** Through each codec, the last codec first. */
  function DecodeAll(codecs: seq<Codec>, payloads: seq<Payload>): seq<Payload> {
    if codecs == [] then payloads else DecodeAll(codecs[..|codecs| - 1], codecs[|codecs| - 1].decode(payloads))
  }

  lemma EncodeOneMore(codecs: seq<Codec>, c: Codec, payloads: seq<Payload>)
    ensures EncodeAll(codecs + [c], payloads) == c.encode(EncodeAll(codecs, payloads))
    ensures DecodeAll(codecs + [c], payloads) == DecodeAll(codecs, c.decode(payloads))
  {
    assert (codecs + [c])[..|codecs|] == codecs;
  }

  /** The first codec of a list encodes first and decodes last. */
  lemma {:induction false} FirstCodec(c: Codec, codecs: seq<Codec>, payloads: seq<Payload>)
    ensures EncodeAll([c] + codecs, payloads) == EncodeAll(codecs, c.encode(payloads))
    ensures DecodeAll([c] + codecs, payloads) == c.decode(DecodeAll(codecs, payloads))
    decreases |codecs|
  {
    if codecs == [] {
      EncodeOneMore([], c, payloads);
      assert [] + [c] == [c] == [c] + codecs;
    } else {
      var init, last := codecs[..|codecs| - 1], codecs[|codecs| - 1];
      assert [c] + codecs == ([c] + init) + [last] && codecs == init + [last];
      EncodeOneMore([c] + init, last, payloads);
      EncodeOneMore(init, last, c.encode(payloads));
      EncodeOneMore(init, last, payloads);
      FirstCodec(c, init, payloads);
      FirstCodec(c, init, last.decode(payloads));
    }
  }

  method Encode(codecs: seq<Codec>, payloads0: seq<Payload>) returns (payloads: seq<Payload>)
    ensures payloads == EncodeAll(codecs, payloads0)
  {
    payloads := payloads0;
    var i := 0;
    while i < |codecs|
      invariant 0 <= i <= |codecs|
      invariant payloads == EncodeAll(codecs[..i], payloads0)
    {
      payloads := codecs[i].encode(payloads);
      i := i + 1;
      assert codecs[..i][..i - 1] == codecs[..i - 1];
    }
    assert codecs[..i] == codecs;
  }

  method Decode(codecs: seq<Codec>, payloads0: seq<Payload>) returns (payloads: seq<Payload>)
    ensures payloads == DecodeAll(codecs, payloads0)
  {
    payloads := payloads0;
    var i := |codecs| - 1;
    assert codecs[..i + 1] == codecs;
    while i >= 0
      invariant -1 <= i < |codecs|
      invariant DecodeAll(codecs[..i + 1], payloads) == DecodeAll(codecs, payloads0)
    {
      assert codecs[..i + 1][..i] == codecs[..i];
      payloads := codecs[i].decode(payloads);
      i := i - 1;
    }
  }

  /** Invertible codecs in any number undo each other. */
  lemma {:induction false} DecodeAllInverts(codecs: seq<Codec>, payloads: seq<Payload>)
    requires Invertible(codecs)
    ensures DecodeAll(codecs, EncodeAll(codecs, payloads)) == payloads
    ensures |EncodeAll(codecs, payloads)| == |payloads|
    decreases |codecs|
  {
    if codecs != [] {
      var init := codecs[..|codecs| - 1];
      assert Invertible(init) by {
        forall k, ps | 0 <= k < |init|
          ensures |init[k].encode(ps)| == |ps| && init[k].decode(init[k].encode(ps)) == ps
        {
          assert init[k] == codecs[k];
        }
      }
      DecodeAllInverts(init, payloads);
    }
  }

  // ---- errors and failures

  datatype Execution = Execution(workflowId: string, runId: string)

  /** The subclasses of `TemporalFailure`; `Plain` is the class itself. */
  datatype Variant =
    | Activity(activityType: string, activityId: Option<string>, retryState: nat, identity: Option<string>)
    | ChildWorkflow(namespace: Option<string>, execution: Execution, workflowType: string, retryState: nat)
    | Application(kind: Option<string>, nonRetryable: Option<bool>, details: Option<seq<Value>>)
    | Cancelled(cancelDetails: seq<Value>)
    | Timeout(lastHeartbeatDetails: Value, timeoutType: nat)
    | Server(serverNonRetryable: bool)
    | Terminated
    | Plain

  datatype TypeError = TypeError(message: string)

  /** What can be thrown: a `TemporalFailure`, another object with a message and a stack, both as the text `String`
      makes of them, or anything else, by the text its message is made from and whether it is truthy: the empty
      string, zero, `false`, `null` and `undefined` are not. */
  datatype Error =
    | Temporal(variant: Variant, message: string, stack: Option<string>, cause: Option<Error>, failure: Option<Failure>)
    | Native(message: string, stackText: string, cause: Option<Error>)
    | Thrown(message: string, truthy: bool)

  predicate Falsy(err: Error) { err.Thrown? && !err.truthy }

  datatype Info =
    | NoInfo
    | ApplicationInfo(kind: Option<string>, nonRetryable: Option<bool>, details: Option<seq<Payload>>)
    | ServerInfo(nonRetryable: Option<bool>)
    | TimeoutInfo(timeoutType: Option<nat>, lastHeartbeatDetails: Option<seq<Payload>>)
    | TerminatedInfo
    | CanceledInfo(details: Option<seq<Payload>>)
    | ResetWorkflowInfo(lastHeartbeatDetails: Option<seq<Payload>>)
    | ChildWorkflowInfo(
        namespace: Option<string>, workflowType: Option<string>, execution: Option<Execution>, retryState: Option<nat>)
    | ActivityInfo(
        activityType: Option<string>, activityId: Option<string>, retryState: Option<nat>, identity: Option<string>)

  datatype Failure = Failure(
    message: Option<string>, stackTrace: Option<string>, encodedAttributes: Option<Payload>, cause: Option<Failure>,
    source: string, info: Info)

  const FAILURE_SOURCE := "TypeScriptSDK"
  const CHILD_WORKFLOW_MESSAGE := "Child Workflow execution failed"
  const RECOMMENDATION :=
    " [A non-Error value was thrown from your code. We recommend throwing Error objects " +
    "so that we can provide a stack trace]"

  // ---- error to failure

  datatype Options = Options(payloads: PayloadConverter, encodeCommonAttributes: bool, patterns: seq<Pattern>)

  function ToPayloads(c: PayloadConverter, values: seq<Value>): seq<Payload> {
    seq(|values|, k requires 0 <= k < |values| => c.toPayload(values[k]))
  }

  function VariantInfo(c: PayloadConverter, v: Variant): Info {
    match v
    case Activity(activityType, activityId, retryState, identity) =>
      ActivityInfo(Some(activityType), activityId, Some(retryState), identity)
    case ChildWorkflow(namespace, execution, workflowType, retryState) =>
      ChildWorkflowInfo(namespace, Some(workflowType), Some(execution), Some(retryState))
    case Application(kind, nonRetryable, details) =>
      ApplicationInfo(kind, nonRetryable,
        if details.Some? && details.value != [] then Some(ToPayloads(c, details.value)) else None)
    case Cancelled(details) => CanceledInfo(if details != [] then Some(ToPayloads(c, details)) else None)
    case Timeout(details, timeoutType) =>
      TimeoutInfo(Some(timeoutType), if Truthy(details) then Some([c.toPayload(details)]) else None)
    case Server(nonRetryable) => ServerInfo(Some(nonRetryable))
    case Terminated => TerminatedInfo
    case Plain => NoInfo
  }

  function OptionalErrorToOptionalFailure(o: Options, err: Option<Error>): Option<Failure>
    decreases err, 2
  {
    if err.None? || Falsy(err.value) then None else Some(ErrorToFailure(o, err.value))
  }

  function ErrorToFailureInner(o: Options, err: Error): Failure
    decreases err, 0
  {
    match err
    case Temporal(variant, message, stack, cause, failure) =>
      if failure.Some? then failure.value
      else Failure(Some(message), Some(Cutoff(o.patterns, stack)), None,
        OptionalErrorToOptionalFailure(o, cause), FAILURE_SOURCE, VariantInfo(o.payloads, variant))
    case Native(message, stack, cause) =>
      Failure(Some(message), Some(Cutoff(o.patterns, Some(stack))), None,
        OptionalErrorToOptionalFailure(o, cause), FAILURE_SOURCE, NoInfo)
    case Thrown(message, _) => Failure(Some(message + RECOMMENDATION), None, None, None, FAILURE_SOURCE, NoInfo)
  }

  function Attributes(message: Option<string>, stackTrace: Option<string>): Value {
    Record((if message.Some? then map["message" := Text(message.value)] else map[])
         + (if stackTrace.Some? then map["stack_trace" := Text(stackTrace.value)] else map[]))
  }

  function ErrorToFailure(o: Options, err: Error): Failure
    decreases err, 1
  {
    var f := ErrorToFailureInner(o, err);
    if o.encodeCommonAttributes then
      f.(message := Some("Encoded failure"), stackTrace := Some(""),
         encodedAttributes := Some(o.payloads.toPayload(Attributes(f.message, f.stackTrace))))
    else f
  }

  // ---- failure to error

  function FromPayloads(c: PayloadConverter, payloads: Option<seq<Payload>>): seq<Value> {
    if payloads.None? then []
    else seq(|payloads.value|, k requires 0 <= k < |payloads.value| => c.fromPayload(payloads.value[k]))
  }

  function FirstPayload(c: PayloadConverter, payloads: Option<seq<Payload>>): Value {
    if payloads.None? || payloads.value == [] then Undefined else c.fromPayload(payloads.value[0])
  }

  /** The encoded attributes override message and stack trace, each only if it is a string. */
  function ApplyAttributes(c: PayloadConverter, f: Failure): (g: Failure)
    ensures g.cause == f.cause && g.info == f.info
  {
    if f.encodedAttributes.None? then f
    else
      match c.fromPayload(f.encodedAttributes.value)
      case Record(fields) =>
        var g := if "message" in fields && fields["message"].Text?
                 then f.(message := Some(fields["message"].text)) else f;
        if "stack_trace" in fields && fields["stack_trace"].Text?
        then g.(stackTrace := Some(fields["stack_trace"].text)) else g
      case _ => f
  }

  function OrElse<T>(o: Option<T>, default: T): T { if o.Some? then o.value else default }

  function InfoVariant(c: PayloadConverter, info: Info): Result<Variant, TypeError> {
    match info
    case ApplicationInfo(kind, nonRetryable, details) =>
      Ok(Application(kind, Some(OrElse(nonRetryable, false)), Some(FromPayloads(c, details))))
    case ServerInfo(nonRetryable) => Ok(Server(OrElse(nonRetryable, false)))
    case TimeoutInfo(timeoutType, details) => Ok(Timeout(FirstPayload(c, details), OrElse(timeoutType, 0)))
    case TerminatedInfo => Ok(Terminated)
    case CanceledInfo(details) => Ok(Cancelled(FromPayloads(c, details)))
    case ResetWorkflowInfo(details) =>
      Ok(Application(Some("ResetWorkflow"), Some(false), Some(FromPayloads(c, details))))
    case ChildWorkflowInfo(namespace, workflowType, execution, retryState) =>
      if OrElse(workflowType, "") == "" || execution.None? then
        Err(TypeError("Missing attributes on childWorkflowExecutionFailureInfo"))
      else Ok(ChildWorkflow(namespace, execution.value, workflowType.value, OrElse(retryState, 0)))
    case ActivityInfo(activityType, activityId, retryState, identity) =>
      if OrElse(activityType, "") == "" then Err(TypeError("Missing activityType?.name on activityFailureInfo"))
      else Ok(Activity(activityType.value, activityId, OrElse(retryState, 0), identity))
    case NoInfo => Ok(Plain)
  }

  function OptionalFailureToOptionalError(c: PayloadConverter, f: Option<Failure>): Result<Option<Error>, TypeError> {
    if f.None? then Ok(None)
    else match FailureToError(c, f.value)
         case Ok(e) => Ok(Some(e))
         case Err(error) => Err(error)
  }

  /** The constructor calls: a timeout takes no cause, and a child workflow failure no message. */
  function Construct(variant: Variant, g: Failure, cause: Option<Error>): Error {
    Temporal(variant, if variant.ChildWorkflow? then CHILD_WORKFLOW_MESSAGE else OrElse(g.message, ""),
             Some(OrElse(g.stackTrace, "")), cause, Some(g))
  }

  function FailureToError(c: PayloadConverter, f: Failure): Result<Error, TypeError> {
    var g := ApplyAttributes(c, f);
    match InfoVariant(c, g.info)
    case Err(error) => Err(error)
    case Ok(variant) =>
      match if variant.Timeout? then Ok(None) else OptionalFailureToOptionalError(c, f.cause)
      case Err(error) => Err(error)
      case Ok(cause) => Ok(Construct(variant, g, cause))
  }

  // ---- failures through the codecs

  function EncodeOne(codecs: seq<Codec>, p: Payload): Option<Payload> {
    var out := EncodeAll(codecs, [p]);
    if out == [] then None else Some(out[0])
  }

  function DecodeOne(codecs: seq<Codec>, p: Payload): Option<Payload> {
    var out := DecodeAll(codecs, [p]);
    if out == [] then None else Some(out[0])
  }

  function MapInfo(info: Info, f: seq<Payload> -> seq<Payload>): Info {
    match info
    case ApplicationInfo(kind, nonRetryable, Some(details)) => ApplicationInfo(kind, nonRetryable, Some(f(details)))
    case TimeoutInfo(timeoutType, Some(details)) => TimeoutInfo(timeoutType, Some(f(details)))
    case CanceledInfo(Some(details)) => CanceledInfo(Some(f(details)))
    case ResetWorkflowInfo(Some(details)) => ResetWorkflowInfo(Some(f(details)))
    case _ => info
  }

  function EncodeFailure(codecs: seq<Codec>, f: Failure): Failure {
    Failure(
      f.message, f.stackTrace,
      if f.encodedAttributes.Some? then EncodeOne(codecs, f.encodedAttributes.value) else None,
      if f.cause.Some? then Some(EncodeFailure(codecs, f.cause.value)) else None,
      f.source, MapInfo(f.info, ps => EncodeAll(codecs, ps)))
  }

  function DecodeFailure(codecs: seq<Codec>, f: Failure): Failure {
    Failure(
      f.message, f.stackTrace,
      if f.encodedAttributes.Some? then DecodeOne(codecs, f.encodedAttributes.value) else None,
      if f.cause.Some? then Some(DecodeFailure(codecs, f.cause.value)) else None,
      f.source, MapInfo(f.info, ps => DecodeAll(codecs, ps)))
  }

  function EncodeErrorToFailure(o: Options, codecs: seq<Codec>, err: Error): Failure {
    EncodeFailure(codecs, ErrorToFailure(o, err))
  }

  function DecodeOptionalFailureToOptionalError(c: PayloadConverter, codecs: seq<Codec>, f: Option<Failure>)
    : Result<Option<Error>, TypeError>
  {
    OptionalFailureToOptionalError(c, if f.None? then None else Some(DecodeFailure(codecs, f.value)))
  }

  // ---- the codecs undo each other on every payload of a failure

  lemma MapInfoInverts(info: Info, f: seq<Payload> -> seq<Payload>, g: seq<Payload> -> seq<Payload>)
    requires forall ps :: g(f(ps)) == ps
    ensures MapInfo(MapInfo(info, f), g) == info
  {
  }

  lemma DecodeOneInverts(codecs: seq<Codec>, p: Payload)
    requires Invertible(codecs)
    ensures EncodeOne(codecs, p).Some? && DecodeOne(codecs, EncodeOne(codecs, p).value) == Some(p)
  {
    DecodeAllInverts(codecs, [p]);
    var out := EncodeAll(codecs, [p]);
    assert out == [out[0]];
  }

  /** For any list of invertible codecs and a failure of any depth. */
  lemma {:induction false} DecodeFailureInverts(codecs: seq<Codec>, f: Failure)
    requires Invertible(codecs)
    ensures DecodeFailure(codecs, EncodeFailure(codecs, f)) == f
  {
    if f.cause.Some? { DecodeFailureInverts(codecs, f.cause.value); }
    if f.encodedAttributes.Some? { DecodeOneInverts(codecs, f.encodedAttributes.value); }
    forall ps ensures DecodeAll(codecs, EncodeAll(codecs, ps)) == ps { DecodeAllInverts(codecs, ps); }
    MapInfoInverts(f.info, ps => EncodeAll(codecs, ps), ps => DecodeAll(codecs, ps));
  }

  // ---- what an error looks like on the other side

  function NormalVariant(v: Variant): Variant {
    match v
    case Application(kind, nonRetryable, details) =>
      Application(kind, Some(OrElse(nonRetryable, false)), Some(OrElse(details, [])))
    case Timeout(details, timeoutType) =>
      Timeout(
        if details in {Undefined, Null, Bool(false), Number(0), Text("")} then Undefined else details, timeoutType)
    case _ => v
  }

  /** Class, message, variant fields and cause chain are kept; the stack is cut; errors that are not Temporal's become
      plain `TemporalFailure`s; absent details and flags get their defaults; falsy heartbeat details, falsy causes and
      the cause of a timeout are dropped; a child workflow failure has a fixed message. */
  function Normal(patterns: seq<Pattern>, err: Error): Error {
    match err
    case Temporal(variant, message, stack, cause, _) =>
      Temporal(NormalVariant(variant), if variant.ChildWorkflow? then CHILD_WORKFLOW_MESSAGE else message,
               Some(Cutoff(patterns, stack)),
               if cause.Some? && (cause.value.Thrown? ==> cause.value.truthy) && !variant.Timeout?
               then Some(Normal(patterns, cause.value)) else None,
               None)
    case Native(message, stack, cause) =>
      Temporal(Plain, message, Some(Cutoff(patterns, Some(stack))),
               if cause.Some? && (cause.value.Thrown? ==> cause.value.truthy)
               then Some(Normal(patterns, cause.value)) else None,
               None)
    case Thrown(message, _) => Temporal(Plain, message + RECOMMENDATION, Some(""), None, None)
  }

  /** Every activity and child workflow failure that is read back names its type. */
  predicate Named(err: Error) {
    match err
    case Temporal(variant, _, _, cause, _) =>
      && (variant.Activity? ==> variant.activityType != "")
      && (variant.ChildWorkflow? ==> variant.workflowType != "")
      && (cause.Some? && !variant.Timeout? ==> Named(cause.value))
    case Native(_, _, cause) => cause.Some? ==> Named(cause.value)
    case Thrown(_, _) => true
  }

  /** No error of the chain has been made from a failure before. */
  predicate Uncached(err: Error) {
    match err
    case Temporal(_, _, _, cause, failure) => failure.None? && (cause.Some? ==> Uncached(cause.value))
    case Native(_, _, cause) => cause.Some? ==> Uncached(cause.value)
    case Thrown(_, _) => true
  }

  /** The error without the failures it was made from. */
  function Strip(err: Error): Error {
    match err
    case Temporal(variant, message, stack, cause, _) =>
      Temporal(variant, message, stack, if cause.Some? then Some(Strip(cause.value)) else None, None)
    case Native(message, stack, cause) => Native(message, stack, if cause.Some? then Some(Strip(cause.value)) else None)
    case Thrown(_, _) => err
  }

  lemma PayloadsRoundTrip(c: PayloadConverter, values: seq<Value>)
    requires Faithful(c)
    ensures FromPayloads(c, Some(ToPayloads(c, values))) == values
  {
  }

  /** The variants that carry values. */
  lemma ValuesRoundTrip(c: PayloadConverter, v: Variant)
    requires Faithful(c) && (v.Application? || v.Cancelled? || v.Timeout?)
    ensures InfoVariant(c, VariantInfo(c, v)) == Ok(NormalVariant(v))
  {
    if v.Application? {
      if v.details.Some? {
        PayloadsRoundTrip(c, v.details.value);
      }
    } else if v.Cancelled? {
      PayloadsRoundTrip(c, v.cancelDetails);
    } else {
      assert c.fromPayload(c.toPayload(v.lastHeartbeatDetails)) == v.lastHeartbeatDetails;
    }
    hide FromPayloads, ToPayloads, Faithful;
  }

  lemma ActivityRoundTrip(c: PayloadConverter, v: Variant)
    requires v.Activity?
    ensures InfoVariant(c, VariantInfo(c, v)) ==
      if v.activityType == "" then Err(TypeError("Missing activityType?.name on activityFailureInfo")) else Ok(v)
  {
  }

  lemma ChildWorkflowRoundTrip(c: PayloadConverter, v: Variant)
    requires v.ChildWorkflow?
    ensures InfoVariant(c, VariantInfo(c, v)) ==
      if v.workflowType == "" then Err(TypeError("Missing attributes on childWorkflowExecutionFailureInfo"))
      else Ok(v)
  {
  }

  lemma VariantRoundTrip(c: PayloadConverter, v: Variant)
    requires Faithful(c)
    ensures InfoVariant(c, VariantInfo(c, v)) ==
      if (v.Activity? && v.activityType == "") then Err(TypeError("Missing activityType?.name on activityFailureInfo"))
      else if (v.ChildWorkflow? && v.workflowType == "") then
        Err(TypeError("Missing attributes on childWorkflowExecutionFailureInfo"))
      else Ok(NormalVariant(v))
  {
    if v.Application? || v.Cancelled? || v.Timeout? {
      ValuesRoundTrip(c, v);
      hide InfoVariant, VariantInfo, NormalVariant;
    } else if v.Activity? {
      ActivityRoundTrip(c, v);
      hide InfoVariant, VariantInfo;
    } else if v.ChildWorkflow? {
      ChildWorkflowRoundTrip(c, v);
      hide InfoVariant, VariantInfo;
    } else {
      hide FromPayloads, FirstPayload, ToPayloads, Faithful;
    }
  }

  /** Encoding the common attributes or not, they are there again after `ApplyAttributes`. */
  lemma AttributesRoundTrip(o: Options, err: Error)
    requires Faithful(o.payloads) && ErrorToFailureInner(o, err).encodedAttributes.None?
    ensures var f, g := ErrorToFailureInner(o, err), ApplyAttributes(o.payloads, ErrorToFailure(o, err));
      f.message.Some? ==> g.message == f.message && OrElse(g.stackTrace, "") == OrElse(f.stackTrace, "")
  {
    var f := ErrorToFailureInner(o, err);
    if o.encodeCommonAttributes {
      assert o.payloads.fromPayload(o.payloads.toPayload(Attributes(f.message, f.stackTrace)))
        == Attributes(f.message, f.stackTrace);
    }
  }

  /** The error, and the chain below it, come back in normal form. */
  ghost predicate ComesBack(o: Options, err: Error) {
    var r := FailureToError(o.payloads, ErrorToFailure(o, err));
    (r.Ok? <==> Named(err)) && (r.Ok? ==> Strip(r.value) == Normal(o.patterns, err))
  }

  ghost predicate CauseComesBack(o: Options, cause: Option<Error>) {
    var r := OptionalFailureToOptionalError(o.payloads, OptionalErrorToOptionalFailure(o, cause));
    if cause.None? || Falsy(cause.value) then r == Ok(None)
    else (r.Ok? <==> Named(cause.value)) &&
         (r.Ok? ==> r.value.Some? && Strip(r.value.value) == Normal(o.patterns, cause.value))
  }

  /** The result of reading back, but for the failure that it caches. */
  function ReadBack(o: Options, err: Error, variant: Variant, cause: Option<Error>): Error
    requires err.Temporal?
  {
    Temporal(variant, if variant.ChildWorkflow? then CHILD_WORKFLOW_MESSAGE else err.message,
             Some(Cutoff(o.patterns, err.stack)), if cause.Some? then Some(Strip(cause.value)) else None, None)
  }

  lemma TemporalReadsBack(o: Options, err: Error)
    requires Faithful(o.payloads) && err.Temporal? && err.failure.None?
    ensures var r := FailureToError(o.payloads, ErrorToFailure(o, err));
      var variant := InfoVariant(o.payloads, VariantInfo(o.payloads, err.variant));
      var cause := OptionalFailureToOptionalError(o.payloads, OptionalErrorToOptionalFailure(o, err.cause));
      && (r.Ok? <==> variant.Ok? && (variant.value.Timeout? || cause.Ok?))
      && (r.Ok? ==> Strip(r.value) ==
                    ReadBack(o, err, variant.value, if variant.value.Timeout? then None else cause.value))
  {
    AttributesRoundTrip(o, err);
    hide ApplyAttributes, InfoVariant, VariantInfo, Cutoff, OptionalFailureToOptionalError,
         OptionalErrorToOptionalFailure;
  }

  lemma TemporalComesBack(o: Options, err: Error)
    requires Faithful(o.payloads) && Uncached(err) && err.Temporal? && CauseComesBack(o, err.cause)
    ensures ComesBack(o, err)
  {
    assert err.cause.Some? && Falsy(err.cause.value) ==> Named(err.cause.value);
    TemporalReadsBack(o, err);
    VariantRoundTrip(o.payloads, err.variant);
    hide FailureToError, ErrorToFailure, Strip, InfoVariant, VariantInfo, Cutoff, OptionalFailureToOptionalError,
         OptionalErrorToOptionalFailure, Faithful;
  }

  lemma OtherComesBack(o: Options, err: Error)
    requires Faithful(o.payloads) && !err.Temporal? && (err.Native? ==> CauseComesBack(o, err.cause))
    ensures ComesBack(o, err)
  {
    assert err.Native? && err.cause.Some? && Falsy(err.cause.value) ==> Named(err.cause.value);
    AttributesRoundTrip(o, err);
    assert OptionalFailureToOptionalError(o.payloads, None) == Ok(None);
    hide ApplyAttributes, Cutoff, OptionalFailureToOptionalError, OptionalErrorToOptionalFailure;
  }

  /** One conversion there and back, for a chain of any depth. */
  lemma {:induction false} ConversionRoundTrip(o: Options, err: Error)
    requires Faithful(o.payloads) && Uncached(err)
    ensures ComesBack(o, err)
  {
    if !err.Thrown? && err.cause.Some? { ConversionRoundTrip(o, err.cause.value); }
    if err.Temporal? { TemporalComesBack(o, err); } else { OtherComesBack(o, err); }
  }

  /** The whole pipeline: an error chain that names its types comes back in normal form, whatever the codecs and
      whether or not the common attributes are encoded; any other chain is rejected with a type error. */
  lemma PipelineRoundTrip(o: Options, codecs: seq<Codec>, err: Error)
    requires Faithful(o.payloads) && Invertible(codecs) && Uncached(err)
    ensures var sent := EncodeErrorToFailure(o, codecs, err);
      var r := DecodeOptionalFailureToOptionalError(o.payloads, codecs, Some(sent));
      if Named(err) then r.Ok? && r.value.Some? && Strip(r.value.value) == Normal(o.patterns, err) else r.Err?
  {
    DecodeFailureInverts(codecs, ErrorToFailure(o, err));
    ConversionRoundTrip(o, err);
  }

  /** A chain with an activity failure that names no type cannot be read back. */
  lemma UnnamedExample(o: Options, codecs: seq<Codec>)
    requires Faithful(o.payloads) && Invertible(codecs)
    ensures var err := Temporal(Activity("", None, 0, None), "Activity task failed", None, None, None);
      DecodeOptionalFailureToOptionalError(o.payloads, codecs, Some(EncodeErrorToFailure(o, codecs, err))).Err?
  {
    PipelineRoundTrip(o, codecs, Temporal(Activity("", None, 0, None), "Activity task failed", None, None, None));
  }

  lemma ApplyTwice(c: PayloadConverter, f: Failure)
    ensures ApplyAttributes(c, ApplyAttributes(c, f)) == ApplyAttributes(c, f)
  {
  }

  /** An error that was made from a failure carries it: sent on without encoding attributes, it arrives as it is,
      cause chain, stack and failure included. */
  lemma ForwardedUnchanged(o: Options, codecs: seq<Codec>, f: Failure)
    requires Invertible(codecs) && !o.encodeCommonAttributes
    requires FailureToError(o.payloads, f).Ok?
    ensures var e := FailureToError(o.payloads, f).value;
      DecodeOptionalFailureToOptionalError(o.payloads, codecs, Some(EncodeErrorToFailure(o, codecs, e))) == Ok(Some(e))
  {
    var e := FailureToError(o.payloads, f).value;
    var g := ApplyAttributes(o.payloads, f);
    assert ErrorToFailure(o, e) == g;
    DecodeFailureInverts(codecs, g);
    ApplyTwice(o.payloads, f);
    assert FailureToError(o.payloads, g) == FailureToError(o.payloads, f);
  }
}
