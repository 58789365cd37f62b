/**
 * Checks on the invoke envelope, the record `{ args, fns }` one side of the
 * IPC layer sends: `args` are the call's arguments with every function
 * replaced by null, and `fns` describes where each function was.
 */
module IpcxValidators {
  import opened Wrappers
  import opened Strings
  import opened JsValues
  import opened IpcxErrors

  /** isInvokeEnvelope: a truthy object whose args and fns are both arrays. */
  predicate IsInvokeEnvelope(payload: Value) {
    Truthy(payload) && TypeOf(payload) == "object" && Get(payload, "args").Arr? && Get(payload, "fns").Arr?
  }

  /** The envelopes are exactly the plain objects and arrays holding array-valued args and fns. */
  lemma IsInvokeEnvelopeMeaning(payload: Value)
    ensures IsInvokeEnvelope(payload) <==>
      (payload.Obj? || payload.Arr?) && Get(payload, "args").Arr? && Get(payload, "fns").Arr?
  {
  }

  /** An array never carries args: reading "args" off an array gives undefined. */
  lemma ArrayIsNotEnvelope(items: seq<Value>)
    ensures !IsInvokeEnvelope(Arr(items))
  {
    assert !IsIndexKey("args") by { assert !IsDigit("args"[0]); }
  }

  /** A function descriptor after normalisation. */
  datatype Descriptor = Descriptor(fnLabel: Value, index: Value, channel: Value, segments: Value)

  /** The parsed index path with a leading "args" segment removed. */
  function TrimArgs(parsed: seq<Value>): (r: seq<Value>)
    ensures parsed == r || parsed == [Str("args")] + r
  {
    if |parsed| > 0 && StrictEquals(parsed[0], Str("args")) then
      assert parsed == [parsed[0]] + parsed[1..];
      parsed[1..]
    else parsed
  }

  /** Exactly one leading "args" is removed, and only when it is there. */
  lemma TrimArgsMeaning(parsed: seq<Value>)
    ensures |parsed| > 0 && parsed[0] == Str("args") ==> [Str("args")] + TrimArgs(parsed) == parsed
    ensures !(|parsed| > 0 && parsed[0] == Str("args")) ==> TrimArgs(parsed) == parsed
  {
  }

  /** `v?.length`: undefined when v is undefined or null. */
  function OptionalLength(v: Value): Value {
    if v.Undefined? || v.Null? then Undefined else Get(v, "length")
  }

  /**
   * normalizeDescriptor: the descriptor's own segments when they have a
   * truthy length, otherwise the parsed index without a leading "args".
   * The path parser is a parameter (None: it throws); reading the index of
   * undefined or null throws as well.
   */
  function NormalizeDescriptor(d: Value, parsePath: Value -> Option<seq<Value>>): (r: Option<Descriptor>)
    ensures r.Some? <==> !d.Undefined? && !d.Null? && parsePath(Get(d, "index")).Some?
    ensures r.Some? ==> r.value.fnLabel == Get(d, "label") && r.value.index == Get(d, "index") && r.value.channel == Get(d, "channel")
  {
    if d.Undefined? || d.Null? then None
    else
      var parsed := parsePath(Get(d, "index"));
      if parsed.None? then None
      else
        var trimmed := TrimArgs(parsed.value);
        var own := Get(d, "segments");
        var segments := if Truthy(OptionalLength(own)) then own else Arr(trimmed);
        Some(Descriptor(Get(d, "label"), Get(d, "index"), Get(d, "channel"), segments))
  }

  /**
   * A descriptor whose segments are a nonempty array keeps them; with an
   * empty or missing segments array the index path is used instead, less
   * its leading "args".
   */
  lemma NormalizeDescriptorSegments(d: Value, parsePath: Value -> Option<seq<Value>>)
    requires d.Obj? && parsePath(Get(d, "index")).Some?
    requires Get(d, "segments").Arr? || Get(d, "segments").Undefined?
    ensures var r := NormalizeDescriptor(d, parsePath).value;
      var own := Get(d, "segments");
      if own.Arr? && |own.items| > 0 then r.segments == own
      else r.segments == Arr(TrimArgs(parsePath(Get(d, "index")).value))
  {
  }

  /** Why normalizeEnvelope threw: the error code and message it carries. */
  datatype Failure = Failure(code: ErrorCode, message: string)

  /** The normalised envelope. */
  datatype InvokeEnvelope = InvokeEnvelope(args: seq<Value>, fns: seq<Descriptor>)

  /** fns.map(normalize) from position `start`, failing with the first index that throws. */
  function NormalizeAll(fns: seq<Value>, start: nat, normalize: Value -> Option<Descriptor>): (r: Result<seq<Descriptor>, nat>)
    requires start <= |fns|
    ensures r.Ok? ==> |r.value| == |fns| - start
    ensures r.Err? ==> start <= r.error < |fns|
    decreases |fns| - start
  {
    if start == |fns| then Ok([])
    else
      match normalize(fns[start])
      case None => Err(start)
      case Some(d) =>
        match NormalizeAll(fns, start + 1, normalize)
        case Ok(rest) => Ok([d] + rest)
        case Err(i) => Err(i)
  }

  /** When the map succeeds, each result is its descriptor normalised, in place. */
  lemma {:induction false} NormalizeAllOk(fns: seq<Value>, start: nat, normalize: Value -> Option<Descriptor>)
    requires start <= |fns|
    requires NormalizeAll(fns, start, normalize).Ok?
    ensures forall i :: start <= i < |fns| ==> normalize(fns[i]) == Some(NormalizeAll(fns, start, normalize).value[i - start])
    decreases |fns| - start
  {
    if start < |fns| {
      var d := normalize(fns[start]);
      var rest := NormalizeAll(fns, start + 1, normalize);
      assert d.Some? && rest.Ok?;
      var ds := NormalizeAll(fns, start, normalize).value;
      assert ds == [d.value] + rest.value;
      NormalizeAllOk(fns, start + 1, normalize);
      forall i | start < i < |fns|
        ensures normalize(fns[i]) == Some(ds[i - start])
      {
        assert ds[i - start] == rest.value[i - (start + 1)];
      }
    }
  }

  /** When the map fails, it names the first descriptor that throws. */
  lemma {:induction false} NormalizeAllErr(fns: seq<Value>, start: nat, normalize: Value -> Option<Descriptor>)
    requires start <= |fns|
    requires NormalizeAll(fns, start, normalize).Err?
    ensures normalize(fns[NormalizeAll(fns, start, normalize).error]).None?
    ensures forall i :: start <= i < NormalizeAll(fns, start, normalize).error ==> normalize(fns[i]).Some?
    decreases |fns| - start
  {
    var k := NormalizeAll(fns, start, normalize).error;
    if normalize(fns[start]).Some? {
      var rest := NormalizeAll(fns, start + 1, normalize);
      assert rest.Err? && rest.error == k;
      NormalizeAllErr(fns, start + 1, normalize);
      forall i | start <= i < k
        ensures normalize(fns[i]).Some?
      {
        if i > start {
          assert start + 1 <= i < rest.error;
        }
      }
    } else {
      assert k == start;
    }
  }

  /**
   * normalizeEnvelope: the payload must be a truthy object, its args an
   * array and its fns an array; then every descriptor is normalised, and a
   * descriptor that throws is reported by its index with the
   * INVALID_DESCRIPTOR code.
   */
  function NormalizeEnvelope(payload: Value, parsePath: Value -> Option<seq<Value>>): (r: Result<InvokeEnvelope, Failure>)
    ensures r.Ok? ==>
      IsInvokeEnvelope(payload) && r.value.args == Get(payload, "args").items && |r.value.fns| == |Get(payload, "fns").items|
  {
    if !Truthy(payload) || TypeOf(payload) != "object" then
      Err(Failure(InvalidPayload, "Invalid IPCX payload: expected object"))
    else
      var args := Get(payload, "args");
      var fns := Get(payload, "fns");
      if !args.Arr? then
        Err(Failure(InvalidPayload, "Invalid IPCX payload: args must be an array, got " + TypeOf(args)))
      else if !fns.Arr? then
        Err(Failure(InvalidPayload, "Invalid IPCX payload: fns must be an array, got " + TypeOf(fns)))
      else
        match NormalizeAll(fns.items, 0, d => NormalizeDescriptor(d, parsePath))
        case Ok(ds) => Ok(InvokeEnvelope(args.items, ds))
        case Err(i) => Err(Failure(InvalidDescriptor, "Invalid function descriptor at index " + NatToString(i)))
  }

  /**
   * normalizeEnvelope accepts a payload exactly when isInvokeEnvelope holds
   * and every descriptor normalises; a payload isInvokeEnvelope rejects
   * fails with INVALID_PAYLOAD, one it accepts can fail only on a descriptor.
   */
  lemma NormalizeEnvelopeMeaning(payload: Value, parsePath: Value -> Option<seq<Value>>)
    ensures NormalizeEnvelope(payload, parsePath).Ok? <==>
      IsInvokeEnvelope(payload) && NormalizeAll(Get(payload, "fns").items, 0, d => NormalizeDescriptor(d, parsePath)).Ok?
    ensures !IsInvokeEnvelope(payload) ==> NormalizeEnvelope(payload, parsePath).Err? && NormalizeEnvelope(payload, parsePath).error.code == InvalidPayload
    ensures IsInvokeEnvelope(payload) && NormalizeEnvelope(payload, parsePath).Err? ==> NormalizeEnvelope(payload, parsePath).error.code == InvalidDescriptor
  {
  }

  /** An accepted envelope holds each descriptor normalised, in order. */
  lemma NormalizeEnvelopeDescriptors(payload: Value, parsePath: Value -> Option<seq<Value>>)
    requires NormalizeEnvelope(payload, parsePath).Ok?
    ensures IsInvokeEnvelope(payload)
    ensures forall i :: 0 <= i < |Get(payload, "fns").items| ==>
      NormalizeDescriptor(Get(payload, "fns").items[i], parsePath) == Some(NormalizeEnvelope(payload, parsePath).value.fns[i])
  {
    var fns := Get(payload, "fns").items;
    var normalize := d => NormalizeDescriptor(d, parsePath);
    var ds := NormalizeEnvelope(payload, parsePath).value.fns;
    assert NormalizeAll(fns, 0, normalize) == Ok(ds);
    NormalizeAllOk(fns, 0, normalize);
    forall i | 0 <= i < |fns|
      ensures NormalizeDescriptor(fns[i], parsePath) == Some(ds[i])
    {
      assert normalize(fns[i]) == Some(ds[i - 0]);
    }
  }

  /**
   * A descriptor that throws rejects the envelope with INVALID_DESCRIPTOR,
   * and the error names the first such index.
   */
  lemma NormalizeEnvelopeBadDescriptor(payload: Value, parsePath: Value -> Option<seq<Value>>)
    requires IsInvokeEnvelope(payload) && NormalizeEnvelope(payload, parsePath).Err?
    ensures exists k ::
      && 0 <= k < |Get(payload, "fns").items|
      && NormalizeDescriptor(Get(payload, "fns").items[k], parsePath).None?
      && (forall i :: 0 <= i < k ==> NormalizeDescriptor(Get(payload, "fns").items[i], parsePath).Some?)
      && NormalizeEnvelope(payload, parsePath).error == Failure(InvalidDescriptor, "Invalid function descriptor at index " + NatToString(k))
  {
    var fns := Get(payload, "fns").items;
    var normalize := d => NormalizeDescriptor(d, parsePath);
    var m := NormalizeAll(fns, 0, normalize);
    assert m.Err?;
    NormalizeAllErr(fns, 0, normalize);
    var k := m.error;
    assert NormalizeDescriptor(fns[k], parsePath).None? by { assert normalize(fns[k]).None?; }
    forall i | 0 <= i < k
      ensures NormalizeDescriptor(fns[i], parsePath).Some?
    {
      assert normalize(fns[i]).Some?;
    }
  }

  /** The outcome of validateEnvelope. */
  datatype Validation = Valid(envelope: InvokeEnvelope) | Invalid(error: Failure)

  /** validateEnvelope: normalizeEnvelope's outcome as a value instead of a throw. */
  function ValidateEnvelope(payload: Value, parsePath: Value -> Option<seq<Value>>): (r: Validation)
    ensures r.Valid? <==> NormalizeEnvelope(payload, parsePath).Ok?
    ensures r.Valid? ==> r.envelope == NormalizeEnvelope(payload, parsePath).value
    ensures r.Invalid? ==> r.error == NormalizeEnvelope(payload, parsePath).error
  {
    match NormalizeEnvelope(payload, parsePath)
    case Ok(envelope) => Valid(envelope)
    case Err(error) => Invalid(error)
  }

  /**
   * prepareInboundArgs: an envelope's args, the rest arguments when the
   * payload is undefined, and otherwise the payload followed by the rest.
   */
  function PrepareInboundArgs(payload: Value, rest: seq<Value>): (r: seq<Value>)
    ensures IsInvokeEnvelope(payload) ==> r == Get(payload, "args").items
    ensures !IsInvokeEnvelope(payload) ==> |r| >= |rest| && r[|r| - |rest|..] == rest
    ensures !IsInvokeEnvelope(payload) && !payload.Undefined? ==> |r| == |rest| + 1 && r[0] == payload
  {
    if IsInvokeEnvelope(payload) then Get(payload, "args").items
    else if payload.Undefined? then rest
    else [payload] + rest
  }

  /** A payload normalizeEnvelope accepts contributes exactly the envelope's args. */
  lemma PrepareInboundArgsOfEnvelope(payload: Value, rest: seq<Value>, parsePath: Value -> Option<seq<Value>>)
    requires NormalizeEnvelope(payload, parsePath).Ok?
    ensures PrepareInboundArgs(payload, rest) == NormalizeEnvelope(payload, parsePath).value.args
  {
    NormalizeEnvelopeMeaning(payload, parsePath);
  }

  /** Any other payload is kept as the first argument unless it is undefined; the rest always follow. */
  lemma PrepareInboundArgsOther(payload: Value, rest: seq<Value>)
    requires !IsInvokeEnvelope(payload)
    ensures payload.Undefined? ==> PrepareInboundArgs(payload, rest) == rest
    ensures !payload.Undefined? ==> PrepareInboundArgs(payload, rest) == [payload] + rest
  {
  }
}
