/** packages/common/src/converter/failure-converter.ts and internal-non-workflow/codec-helpers.ts: what a failure holds
    when it is sent, and which failures can be read, whoever made them. */
module FailureWire {
  import opened FailurePipeline
  import opened StackTraces
  import opened Wrappers

  // ---- every payload passes through the codecs

  function InfoGroups(info: Info): seq<seq<Payload>> {
    match info
    case ApplicationInfo(_, _, Some(details)) => [details]
    case TimeoutInfo(_, Some(details)) => [details]
    case CanceledInfo(Some(details)) => [details]
    case ResetWorkflowInfo(Some(details)) => [details]
    case _ => []
  }

  /** All payloads of a failure and of its causes, in groups that a codec sees together. */
  function Groups(f: Failure): seq<seq<Payload>> {
    AttributeGroups(f.encodedAttributes) + InfoGroups(f.info) + if f.cause.Some? then Groups(f.cause.value) else []
  }

  function AttributeGroups(attributes: Option<Payload>): seq<seq<Payload>> {
    if attributes.Some? then [[attributes.value]] else []
  }

  function BlankInfo(info: Info): Info {
    match info
    case ApplicationInfo(kind, nonRetryable, Some(_)) => ApplicationInfo(kind, nonRetryable, Some([]))
    case TimeoutInfo(timeoutType, Some(_)) => TimeoutInfo(timeoutType, Some([]))
    case CanceledInfo(Some(_)) => CanceledInfo(Some([]))
    case ResetWorkflowInfo(Some(_)) => ResetWorkflowInfo(Some([]))
    case _ => info
  }

  /** What a failure and its causes hold besides payloads. */
  function Blank(f: Failure): Failure {
    Failure(
      f.message, f.stackTrace, if f.encodedAttributes.Some? then Some(Payload(map[], [])) else None,
      if f.cause.Some? then Some(Blank(f.cause.value)) else None, f.source, BlankInfo(f.info))
  }

  function EncodeEach(codecs: seq<Codec>, groups: seq<seq<Payload>>): seq<seq<Payload>> {
    seq(|groups|, k requires 0 <= k < |groups| => EncodeAll(codecs, groups[k]))
  }

  function DecodeEach(codecs: seq<Codec>, groups: seq<seq<Payload>>): seq<seq<Payload>> {
    seq(|groups|, k requires 0 <= k < |groups| => DecodeAll(codecs, groups[k]))
  }

  lemma InfoGroupsMapped(info: Info, f: seq<Payload> -> seq<Payload>)
    ensures BlankInfo(MapInfo(info, f)) == BlankInfo(info)
    ensures if InfoGroups(info) == [] then InfoGroups(MapInfo(info, f)) == []
            else |InfoGroups(info)| == 1 && InfoGroups(MapInfo(info, f)) == [f(InfoGroups(info)[0])]
  {
  }

  lemma EncodeInfo(codecs: seq<Codec>, info: Info)
    ensures var mapped := MapInfo(info, ps => EncodeAll(codecs, ps));
            BlankInfo(mapped) == BlankInfo(info) && InfoGroups(mapped) == EncodeEach(codecs, InfoGroups(info))
  {
    InfoGroupsMapped(info, ps => EncodeAll(codecs, ps));
    hide EncodeAll, InfoGroups, MapInfo, BlankInfo;
  }

  lemma DecodeInfo(codecs: seq<Codec>, info: Info)
    ensures var mapped := MapInfo(info, ps => DecodeAll(codecs, ps));
            BlankInfo(mapped) == BlankInfo(info) && InfoGroups(mapped) == DecodeEach(codecs, InfoGroups(info))
  {
    InfoGroupsMapped(info, ps => DecodeAll(codecs, ps));
    hide DecodeAll, InfoGroups, MapInfo, BlankInfo;
  }

  lemma EncodeAttributes(codecs: seq<Codec>, attributes: Option<Payload>)
    requires Invertible(codecs)
    ensures attributes.Some? ==> EncodeOne(codecs, attributes.value).Some?
    ensures AttributeGroups(if attributes.Some? then EncodeOne(codecs, attributes.value) else None) ==
            EncodeEach(codecs, AttributeGroups(attributes))
  {
    if attributes.Some? {
      DecodeAllInverts(codecs, [attributes.value]);
      var out := EncodeAll(codecs, [attributes.value]);
      assert out == [out[0]];
    }
    hide EncodeAll, Invertible;
  }

  lemma DecodeAttributes(codecs: seq<Codec>, attributes: Option<Payload>)
    requires KeepLength(codecs)
    ensures attributes.Some? ==> DecodeOne(codecs, attributes.value).Some?
    ensures AttributeGroups(if attributes.Some? then DecodeOne(codecs, attributes.value) else None) ==
            DecodeEach(codecs, AttributeGroups(attributes))
  {
    if attributes.Some? {
      DecodeKeepsLength(codecs, [attributes.value]);
      var out := DecodeAll(codecs, [attributes.value]);
      assert out == [out[0]];
    }
    hide DecodeAll, KeepLength;
  }

  lemma EncodeThree(codecs: seq<Codec>, a: seq<seq<Payload>>, b: seq<seq<Payload>>, c: seq<seq<Payload>>)
    ensures EncodeEach(codecs, a + b + c) == EncodeEach(codecs, a) + EncodeEach(codecs, b) + EncodeEach(codecs, c)
  {
    hide EncodeAll;
  }

  lemma DecodeThree(codecs: seq<Codec>, a: seq<seq<Payload>>, b: seq<seq<Payload>>, c: seq<seq<Payload>>)
    ensures DecodeEach(codecs, a + b + c) == DecodeEach(codecs, a) + DecodeEach(codecs, b) + DecodeEach(codecs, c)
  {
    hide DecodeAll;
  }

  /** At any depth each group of payloads goes through all codecs together, and nothing else of the failure changes. */
  lemma {:induction false} EncodesEveryPayload(codecs: seq<Codec>, f: Failure)
    requires Invertible(codecs)
    ensures Groups(EncodeFailure(codecs, f)) == EncodeEach(codecs, Groups(f))
    ensures Blank(EncodeFailure(codecs, f)) == Blank(f)
  {
    var causes := if f.cause.Some? then Groups(f.cause.value) else [];
    if f.cause.Some? {
      EncodesEveryPayload(codecs, f.cause.value);
    }
    EncodeAttributes(codecs, f.encodedAttributes);
    EncodeInfo(codecs, f.info);
    assert EncodeEach(codecs, []) == [];
    hide EncodeEach, EncodeOne, Invertible, InfoGroups, AttributeGroups, BlankInfo, MapInfo;
    EncodeThree(codecs, AttributeGroups(f.encodedAttributes), InfoGroups(f.info), causes);
  }

  /** The decoders give as many payloads as they get. */
  ghost predicate KeepLength(codecs: seq<Codec>) {
    forall k, ps :: 0 <= k < |codecs| ==> |codecs[k].decode(ps)| == |ps|
  }

  lemma {:induction false} DecodeKeepsLength(codecs: seq<Codec>, payloads: seq<Payload>)
    requires KeepLength(codecs)
    ensures |DecodeAll(codecs, payloads)| == |payloads|
    decreases |codecs|
  {
    if codecs != [] {
      var init, last := codecs[..|codecs| - 1], codecs[|codecs| - 1];
      assert forall k :: 0 <= k < |init| ==> init[k] == codecs[k];
      DecodeKeepsLength(init, last.decode(payloads));
    }
  }

  /** And back, whoever encoded it. */
  lemma {:induction false} DecodesEveryPayload(codecs: seq<Codec>, f: Failure)
    requires KeepLength(codecs)
    ensures Groups(DecodeFailure(codecs, f)) == DecodeEach(codecs, Groups(f))
    ensures Blank(DecodeFailure(codecs, f)) == Blank(f)
  {
    var causes := if f.cause.Some? then Groups(f.cause.value) else [];
    if f.cause.Some? {
      DecodesEveryPayload(codecs, f.cause.value);
    }
    DecodeAttributes(codecs, f.encodedAttributes);
    DecodeInfo(codecs, f.info);
    assert DecodeEach(codecs, []) == [];
    hide DecodeEach, DecodeOne, KeepLength, InfoGroups, AttributeGroups, BlankInfo, MapInfo;
    DecodeThree(codecs, AttributeGroups(f.encodedAttributes), InfoGroups(f.info), causes);
  }

  // ---- what the option to encode common attributes hides

  /** Neither message nor stack trace can be read, at any depth. */
  predicate Hidden(f: Failure) {
    && f.message == Some("Encoded failure") && f.stackTrace == Some("") && f.encodedAttributes.Some?
    && (f.cause.Some? ==> Hidden(f.cause.value))
  }

  /** No failure that an error of the chain was made from has a readable cause. */
  predicate CachedCausesHidden(err: Error) {
    match err
    case Temporal(_, _, _, cause, failure) =>
      if failure.Some? then failure.value.cause.Some? ==> Hidden(failure.value.cause.value)
      else cause.Some? ==> CachedCausesHidden(cause.value)
    case Native(_, _, cause) => cause.Some? ==> CachedCausesHidden(cause.value)
    case Thrown(_, _) => true
  }

  lemma {:induction false} HiddenThroughCodecs(codecs: seq<Codec>, f: Failure)
    requires Invertible(codecs)
    ensures Hidden(EncodeFailure(codecs, f)) <==> Hidden(f)
  {
    if f.cause.Some? {
      HiddenThroughCodecs(codecs, f.cause.value);
    }
    EncodeAttributes(codecs, f.encodedAttributes);
    hide EncodeOne, MapInfo, Invertible;
  }

  lemma {:induction false} HidesExactlyWhen(o: Options, err: Error)
    requires o.encodeCommonAttributes
    ensures Hidden(ErrorToFailure(o, err)) <==> CachedCausesHidden(err)
  {
    if !err.Thrown? && err.cause.Some? {
      HidesExactlyWhen(o, err.cause.value);
    }
    CauseOfFailure(o, err);
    hide VariantInfo, Cutoff, Attributes, ErrorToFailureInner;
  }

  lemma CauseOfFailure(o: Options, err: Error)
    ensures var f := ErrorToFailure(o, err);
            && f.cause == (if err.Thrown? then None
                           else if err.Temporal? && err.failure.Some? then err.failure.value.cause
                           else if err.cause.Some? && !Falsy(err.cause.value)
                           then Some(ErrorToFailure(o, err.cause.value)) else None)
            && ((err.Temporal? ==> err.failure.None?) ==>
                 f.source == FAILURE_SOURCE && f.encodedAttributes.Some? == o.encodeCommonAttributes)
  {
    hide VariantInfo, Cutoff, Attributes;
    if !err.Thrown? {
      assert OptionalErrorToOptionalFailure(o, err.cause) ==
        if err.cause.None? || Falsy(err.cause.value) then None else Some(ErrorToFailure(o, err.cause.value));
    }
  }

  /** With the option set, no message and no stack trace of the chain is sent readably, if and only if no error of it
      was made from a failure with a readable cause: such a failure is sent on with its causes as they are. */
  lemma SendsHiddenExactlyWhen(o: Options, codecs: seq<Codec>, err: Error)
    requires Invertible(codecs) && o.encodeCommonAttributes
    ensures Hidden(EncodeErrorToFailure(o, codecs, err)) <==> CachedCausesHidden(err)
  {
    HidesExactlyWhen(o, err);
    HiddenThroughCodecs(codecs, ErrorToFailure(o, err));
  }

  lemma {:induction false} UncachedIsHidden(err: Error)
    requires Uncached(err)
    ensures CachedCausesHidden(err)
  {
    if !err.Thrown? && err.cause.Some? {
      UncachedIsHidden(err.cause.value);
    }
  }

  /** The input: an error that was read from a failure with a plain cause. */
  lemma ReadableCauseExample(o: Options, codecs: seq<Codec>)
    requires Invertible(codecs) && o.encodeCommonAttributes
    ensures var cause := Failure(Some("secret"), None, None, None, "", NoInfo);
            var err := Temporal(Plain, "", None, None, Some(Failure(Some(""), None, None, Some(cause), "", NoInfo)));
            var sent := EncodeErrorToFailure(o, codecs, err);
            sent.cause.Some? && sent.cause.value.message == Some("secret")
  {
    var cause := Failure(Some("secret"), None, None, None, "", NoInfo);
    CauseOfFailure(o, Temporal(Plain, "", None, None, Some(Failure(Some(""), None, None, Some(cause), "", NoInfo))));
    assert EncodeFailure(codecs, cause).message == Some("secret");
    hide ErrorToFailure;
  }

  /** Every failure of the chain says which SDK made it, and has encoded attributes or not. */
  predicate Plainly(f: Failure, encoded: bool) {
    && f.source == "TypeScriptSDK" && f.encodedAttributes.Some? == encoded
    && (f.cause.Some? ==> Plainly(f.cause.value, encoded))
  }

  lemma {:induction false} PlainlyThroughCodecs(codecs: seq<Codec>, f: Failure, encoded: bool)
    requires Invertible(codecs)
    ensures Plainly(EncodeFailure(codecs, f), encoded) <==> Plainly(f, encoded)
  {
    if f.cause.Some? {
      PlainlyThroughCodecs(codecs, f.cause.value, encoded);
    }
    EncodeAttributes(codecs, f.encodedAttributes);
    hide EncodeOne, MapInfo, Invertible;
  }

  lemma {:induction false} MakesPlainly(o: Options, err: Error)
    requires Uncached(err)
    ensures Plainly(ErrorToFailure(o, err), o.encodeCommonAttributes)
  {
    if !err.Thrown? && err.cause.Some? {
      MakesPlainly(o, err.cause.value);
    }
    CauseOfFailure(o, err);
    hide ErrorToFailure;
  }

  lemma SendsPlainly(o: Options, codecs: seq<Codec>, err: Error)
    requires Invertible(codecs) && Uncached(err)
    ensures Plainly(EncodeErrorToFailure(o, codecs, err), o.encodeCommonAttributes)
  {
    MakesPlainly(o, err);
    PlainlyThroughCodecs(codecs, ErrorToFailure(o, err), o.encodeCommonAttributes);
  }

  // ---- attributes that were encoded by anyone

  /** Encoded attributes replace what they give as text, and nothing else; any other value in their place is ignored. */
  lemma AttributesOverride(c: PayloadConverter, f: Failure, message: Option<string>, stackTrace: Option<string>)
    ensures f.encodedAttributes.Some? && c.fromPayload(f.encodedAttributes.value) == Attributes(message, stackTrace) ==>
              ApplyAttributes(c, f) ==
              f.(message := if message.Some? then message else f.message,
                 stackTrace := if stackTrace.Some? then stackTrace else f.stackTrace)
    ensures f.encodedAttributes.None? || !c.fromPayload(f.encodedAttributes.value).Record? ==>
              ApplyAttributes(c, f) == f
  {
  }

  // ---- which failures can be read

  /** Every failure of the chain that is read names what it is about; below a timeout nothing is read. */
  predicate Readable(f: Failure) {
    && (f.info.ActivityInfo? ==> OrElse(f.info.activityType, "") != "")
    && (f.info.ChildWorkflowInfo? ==> OrElse(f.info.workflowType, "") != "" && f.info.execution.Some?)
    && (f.cause.Some? && !f.info.TimeoutInfo? ==> Readable(f.cause.value))
  }

  lemma InfoReadable(c: PayloadConverter, info: Info)
    ensures InfoVariant(c, info).Ok? <==>
            && (info.ActivityInfo? ==> OrElse(info.activityType, "") != "")
            && (info.ChildWorkflowInfo? ==> OrElse(info.workflowType, "") != "" && info.execution.Some?)
    ensures InfoVariant(c, info).Ok? ==> (InfoVariant(c, info).value.Timeout? <==> info.TimeoutInfo?)
  {
    hide FromPayloads, FirstPayload;
  }

  /** Any failure, of any depth, is read as an error if and only if every link that is read names its type. */
  lemma {:induction false} ReadableExactlyWhen(c: PayloadConverter, f: Failure)
    ensures FailureToError(c, f).Ok? <==> Readable(f)
  {
    if f.cause.Some? {
      ReadableExactlyWhen(c, f.cause.value);
    }
    InfoReadable(c, ApplyAttributes(c, f).info);
    hide InfoVariant, ApplyAttributes;
  }

  // ---- a failure that is read, and made into a failure anew

  /** The payloads are what the converter writes for what it reads. */
  ghost predicate Own(c: PayloadConverter) {
    forall p :: c.toPayload(c.fromPayload(p)) == p
  }

  function NonEmpty(details: Option<seq<Payload>>): Option<seq<Payload>> {
    if details == Some([]) then None else details
  }

  /** Of heartbeat details the first payload is kept, if its value is truthy. */
  function First(c: PayloadConverter, details: Option<seq<Payload>>): Option<seq<Payload>> {
    if NonEmpty(details).None? ||
       c.fromPayload(details.value[0]) in {Undefined, Null, Bool(false), Number(0), Text("")}
    then None else Some(details.value[..1])
  }

  function Default<T>(o: Option<T>, value: T): Option<T> { if o.None? then Some(value) else o }

  function SameInfo(c: PayloadConverter, info: Info): Info {
    match info
    case ApplicationInfo(kind, nonRetryable, details) =>
      ApplicationInfo(kind, Default(nonRetryable, false), NonEmpty(details))
    case ResetWorkflowInfo(details) => ApplicationInfo(Some("ResetWorkflow"), Some(false), NonEmpty(details))
    case CanceledInfo(details) => CanceledInfo(NonEmpty(details))
    case TimeoutInfo(timeoutType, details) => TimeoutInfo(Default(timeoutType, 0), First(c, details))
    case ServerInfo(nonRetryable) => ServerInfo(Default(nonRetryable, false))
    case ActivityInfo(activityType, activityId, retryState, identity) =>
      ActivityInfo(activityType, activityId, Default(retryState, 0), identity)
    case ChildWorkflowInfo(namespace, workflowType, execution, retryState) =>
      ChildWorkflowInfo(namespace, workflowType, execution, Default(retryState, 0))
    case _ => info
  }

  lemma PayloadsComeBack(c: PayloadConverter, details: Option<seq<Payload>>)
    requires Own(c)
    ensures details.Some? ==> ToPayloads(c, FromPayloads(c, details)) == details.value
    ensures FromPayloads(c, details) == [] <==> NonEmpty(details).None?
  {
  }

  lemma TimeoutComesBack(c: PayloadConverter, details: Option<seq<Payload>>)
    requires Own(c)
    ensures First(c, details) ==
            if Truthy(FirstPayload(c, details)) then Some([c.toPayload(FirstPayload(c, details))]) else None
  {
    if details.Some? && details.value != [] {
      assert details.value[..1] == [details.value[0]];
    }
  }

  /** What is read of the part about the class, written again, is the same with defaults filled in; a reset becomes an
      application failure. */
  lemma InfoComesBack(c: PayloadConverter, info: Info)
    requires Own(c) && InfoVariant(c, info).Ok?
    ensures VariantInfo(c, InfoVariant(c, info).value) == SameInfo(c, info)
  {
    match info
    case ApplicationInfo(_, _, details) => PayloadsComeBack(c, details);
    case ResetWorkflowInfo(details) => PayloadsComeBack(c, details);
    case CanceledInfo(details) => PayloadsComeBack(c, details);
    case TimeoutInfo(_, details) => TimeoutComesBack(c, details);
    case _ =>
    hide FromPayloads, ToPayloads, FirstPayload, Own, Truthy;
  }

  /** The failure that an error read from `f` is made into, when it does not carry `f` itself. */
  function Remade(o: Options, f: Failure): Failure {
    var g := ApplyAttributes(o.payloads, f);
    Failure(
      Some(if f.info.ChildWorkflowInfo? then "Child Workflow execution failed" else OrElse(g.message, "")),
      Some(Cutoff(o.patterns, Some(OrElse(g.stackTrace, "")))), None,
      if f.cause.Some? && !f.info.TimeoutInfo? then Some(Remade(o, f.cause.value)) else None,
      "TypeScriptSDK", SameInfo(o.payloads, f.info))
  }

  lemma MadeFromStripped(o: Options, err: Error)
    requires !o.encodeCommonAttributes && err.Temporal?
    ensures var f := ErrorToFailure(o, Strip(err));
            && f.message == Some(err.message) && f.stackTrace == Some(Cutoff(o.patterns, err.stack))
            && f.encodedAttributes == None && f.source == "TypeScriptSDK"
            && f.info == VariantInfo(o.payloads, err.variant)
            && f.cause == if err.cause.Some? && !Falsy(Strip(err.cause.value))
                          then Some(ErrorToFailure(o, Strip(err.cause.value))) else None
  {
    CauseOfFailure(o, Strip(err));
    hide VariantInfo, Cutoff;
  }

  lemma ReadAs(c: PayloadConverter, f: Failure)
    requires FailureToError(c, f).Ok?
    ensures var err, g := FailureToError(c, f).value, ApplyAttributes(c, f);
            && err.Temporal? && InfoVariant(c, f.info) == Ok(err.variant)
            && err.message ==
               (if f.info.ChildWorkflowInfo? then "Child Workflow execution failed" else OrElse(g.message, ""))
            && err.stack == Some(OrElse(g.stackTrace, ""))
            && (f.cause.Some? && !f.info.TimeoutInfo? ==>
                 FailureToError(c, f.cause.value).Ok? && err.cause == Some(FailureToError(c, f.cause.value).value))
            && (f.cause.None? || f.info.TimeoutInfo? ==> err.cause == None)
  {
    InfoReadable(c, f.info);
    assert f.info.ChildWorkflowInfo? <==> InfoVariant(c, f.info).value.ChildWorkflow? by {
      hide FromPayloads, FirstPayload;
    }
    hide ApplyAttributes, InfoVariant;
  }

  /** Reading a failure and making one of the error anew, with its cause chain, keeps class, message, fields and
      details; defaults are filled in, the stack is cut, and below a timeout nothing is left. */
  lemma {:induction false} FailureRoundTrip(o: Options, f: Failure)
    requires Own(o.payloads) && !o.encodeCommonAttributes && Readable(f)
    ensures FailureToError(o.payloads, f).Ok?
    ensures ErrorToFailure(o, Strip(FailureToError(o.payloads, f).value)) == Remade(o, f)
  {
    ReadableExactlyWhen(o.payloads, f);
    ReadAs(o.payloads, f);
    InfoComesBack(o.payloads, f.info);
    var err := FailureToError(o.payloads, f).value;
    MadeFromStripped(o, err);
    if f.cause.Some? && !f.info.TimeoutInfo? {
      FailureRoundTrip(o, f.cause.value);
      ReadAs(o.payloads, f.cause.value);
    }
    hide FailureToError, ErrorToFailure, ApplyAttributes, VariantInfo, SameInfo, Cutoff, Own, Readable;
  }
}
