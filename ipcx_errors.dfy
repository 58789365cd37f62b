/**
 * Error transport of the IPC layer: a thrown value is wrapped into a plain
 * error envelope (a record marked with __ipcxError: true) that crosses the
 * process boundary, and the receiving side recognises the envelope and
 * throws an equivalent Error again.
 */
module IpcxErrors {
  import opened Wrappers
  import opened Strings
  import opened JsValues

  /** The IpcxErrorCode enumeration. */
  datatype ErrorCode =
    | InvalidPayload | InvalidArgs | InvalidFns | InvalidDescriptor
    | SerializeFailed | CircularReference | UnsupportedType
    | CallbackFailed | SenderMissing | HydrationFailed | ListenerError
    | UnknownError

  /** The string value of each error code. */
  function CodeText(c: ErrorCode): string {
    match c
    case InvalidPayload => "IPCX_E1001"
    case InvalidArgs => "IPCX_E1002"
    case InvalidFns => "IPCX_E1003"
    case InvalidDescriptor => "IPCX_E1004"
    case SerializeFailed => "IPCX_E2001"
    case CircularReference => "IPCX_E2002"
    case UnsupportedType => "IPCX_E2003"
    case CallbackFailed => "IPCX_E3001"
    case SenderMissing => "IPCX_E3002"
    case HydrationFailed => "IPCX_E3003"
    case ListenerError => "IPCX_E3004"
    case UnknownError => "IPCX_E9999"
  }

  /** Distinct codes have distinct texts. */
  lemma CodeTextInjective(a: ErrorCode, b: ErrorCode)
    requires CodeText(a) == CodeText(b)
    ensures a == b
  {
  }

  /**
   * An Error instance: its name, message, stack and non-standard `code`
   * property (Undefined when absent).
   */
  datatype ErrorObject = ErrorObject(name: Value, message: string, stack: Value, code: Value)

  /** What a throw statement threw: an Error instance or any other value. */
  datatype Thrown = ErrorThrown(err: ErrorObject) | ValueThrown(v: Value)

  /** new IpcxError(code, message): named "IpcxError", carrying the code's text. */
  function IpcxError(code: ErrorCode, message: string, stack: string): (e: ErrorObject)
    ensures e.name == Str("IpcxError") && e.message == message && e.code == Str(CodeText(code))
  {
    ErrorObject(Str("IpcxError"), message, Str(stack), Str(CodeText(code)))
  }

  /** The Error wrapError describes: the thrown Error, or new Error(String(value)) whose stack is `newStack`. */
  function AsError(error: Thrown, newStack: string): (e: ErrorObject)
    ensures error.ValueThrown? ==> e == ErrorObject(Str("Error"), ToStr(error.v), Str(newStack), Undefined)
    ensures error.ErrorThrown? ==> e == error.err
  {
    if error.ErrorThrown? then error.err else ErrorObject(Str("Error"), ToStr(error.v), Str(newStack), Undefined)
  }

  /**
   * The ErrorEnvelope record: its __ipcxError marker is always true, so it
   * is not stored; `code` is None when the property is not written.
   */
  datatype Envelope = Envelope(name: Value, message: string, stack: Value, code: Option<Value>)

  /** The envelope's fields in the order wrapError writes them, then any extra fields. */
  function EnvelopeFields(name: Value, message: string, stack: Value, extra: seq<(string, Value)>): seq<(string, Value)> {
    [("__ipcxError", Bool(true)), ("name", name), ("message", Str(message)), ("stack", stack)] + extra
  }

  /** Looking up each of the envelope's keys finds the value written for it. */
  lemma {:induction false} EnvelopeLookup(name: Value, message: string, stack: Value, extra: seq<(string, Value)>)
    ensures EntryLookup(EnvelopeFields(name, message, stack, extra), "__ipcxError") == Some(Bool(true))
    ensures EntryLookup(EnvelopeFields(name, message, stack, extra), "name") == Some(name)
    ensures EntryLookup(EnvelopeFields(name, message, stack, extra), "message") == Some(Str(message))
    ensures EntryLookup(EnvelopeFields(name, message, stack, extra), "stack") == Some(stack)
    ensures EntryLookup(EnvelopeFields(name, message, stack, extra), "code") == EntryLookup(extra, "code")
  {
    var e := EnvelopeFields(name, message, stack, extra);
    var e1, e2, e3 := e[1..], e[2..], e[3..];
    assert e[0].0 == "__ipcxError" && e1[0].0 == "name" && e2[0].0 == "message" && e3[0].0 == "stack";
    assert e1[1..] == e2 && e2[1..] == e3 && e3[1..] == extra;
    assert "name" != "code" by { assert "name"[0] != "code"[0]; }
    assert EntryLookup(e, "name") == EntryLookup(e1, "name") by { assert |e[0].0| != |"name"|; }
    assert EntryLookup(e, "message") == EntryLookup(e1, "message") == EntryLookup(e2, "message") by {
      assert |e[0].0| != |"message"| && |e1[0].0| != |"message"|;
    }
    assert EntryLookup(e, "stack") == EntryLookup(e1, "stack") == EntryLookup(e2, "stack") == EntryLookup(e3, "stack") by {
      assert |e[0].0| != |"stack"| && |e1[0].0| != |"stack"| && |e2[0].0| != |"stack"|;
    }
    assert EntryLookup(e, "code") == EntryLookup(e1, "code") == EntryLookup(e2, "code") == EntryLookup(e3, "code") == EntryLookup(extra, "code") by {
      assert |e[0].0| != |"code"| && |e2[0].0| != |"code"| && |e3[0].0| != |"code"|;
    }
  }

  /** The code field, written only when the envelope has a code. */
  function CodeField(code: Option<Value>): seq<(string, Value)> {
    if code.Some? then [("code", code.value)] else []
  }

  /** The envelope as the plain object that crosses the process boundary. */
  function ToValue(env: Envelope): (r: Value)
    ensures r.Obj?
  {
    Obj(EnvelopeFields(env.name, env.message, env.stack, CodeField(env.code)))
  }

  /** Reading each property of an envelope object gives the envelope's field. */
  lemma ToValueGet(env: Envelope)
    ensures Get(ToValue(env), "__ipcxError") == Bool(true)
    ensures Get(ToValue(env), "name") == env.name
    ensures Get(ToValue(env), "message") == Str(env.message)
    ensures Get(ToValue(env), "stack") == env.stack
    ensures Get(ToValue(env), "code") == env.code.GetOr(Undefined)
    ensures HasProperty(ToValue(env), "__ipcxError")
    ensures HasProperty(ToValue(env), "code") <==> env.code.Some?
  {
    var e := ToValue(env).entries;
    EnvelopeLookup(env.name, env.message, env.stack, CodeField(env.code));
    GetObj(e, "__ipcxError");
    GetObj(e, "name");
    GetObj(e, "message");
    GetObj(e, "stack");
    GetObj(e, "code");
  }

  /** Property access on a plain object reads its first entry with that key. */
  lemma GetObj(entries: seq<(string, Value)>, key: string)
    ensures Get(Obj(entries), key) == EntryLookup(entries, key).GetOr(Undefined)
  {
  }

  /**
   * wrapError: the envelope for a thrown value. An Error keeps its name
   * (or "Error" when that is falsy), message and stack, and its code when
   * the code is not undefined; any other value is first turned into an Error.
   */
  function WrapError(error: Thrown, newStack: string): (r: Envelope)
    ensures r.message == (if error.ErrorThrown? then error.err.message else ToStr(error.v))
    ensures r.code.Some? <==> error.ErrorThrown? && !error.err.code.Undefined?
    ensures r.code.Some? ==> r.code.value == error.err.code
    ensures Truthy(r.name)
    ensures error.ErrorThrown? && Truthy(error.err.name) ==> r.name == error.err.name
  {
    var err := AsError(error, newStack);
    Envelope(
      if Truthy(err.name) then err.name else Str("Error"),
      err.message,
      err.stack,
      if err.code.Undefined? then None else Some(err.code))
  }

  /** isErrorEnvelope: an object (not null) whose __ipcxError property is exactly true. */
  predicate IsErrorEnvelope(v: Value) {
    TypeOf(v) == "object" && !v.Null? && HasProperty(v, "__ipcxError") && StrictEquals(Get(v, "__ipcxError"), Bool(true))
  }

  /** The envelopes are exactly the plain objects whose first __ipcxError entry is true. */
  lemma IsErrorEnvelopeMeaning(v: Value)
    ensures IsErrorEnvelope(v) <==> v.Obj? && EntryLookup(v.entries, "__ipcxError") == Some(Bool(true))
  {
    if v.Arr? {
      assert !IsIndexKey("__ipcxError") by {
        assert !IsDigit("__ipcxError"[0]);
      }
    }
  }

  /** What unwrapError does: return the value, or throw the rebuilt Error. */
  datatype Unwrapped = Returned(value: Value) | Rethrown(err: ErrorObject)

  /**
   * unwrapError: an envelope is thrown again as new Error(message) with the
   * envelope's name, and its code and stack when they are truthy (else the
   * new Error's own stack, `newStack`); any other value is returned as is.
   */
  function UnwrapError(v: Value, newStack: string): (r: Unwrapped)
    ensures r.Returned? <==> !IsErrorEnvelope(v)
    ensures r.Returned? ==> r.value == v
  {
    if IsErrorEnvelope(v) then
      var message := Get(v, "message");
      var code := Get(v, "code");
      var stack := Get(v, "stack");
      Rethrown(ErrorObject(
        Get(v, "name"),
        if message.Undefined? then "" else ToStr(message),
        if Truthy(stack) then stack else Str(newStack),
        if Truthy(code) then code else Undefined))
    else Returned(v)
  }

  /** Every envelope object is recognised as one, so every wrapped error is. */
  lemma EnvelopeRecognised(env: Envelope)
    ensures IsErrorEnvelope(ToValue(env))
  {
    ToValueGet(env);
  }

  /** Wrapping an IpcxError carries its name and its code's text. */
  lemma WrapIpcxError(code: ErrorCode, message: string, stack: string, newStack: string)
    ensures WrapError(ErrorThrown(IpcxError(code, message, stack)), newStack).code == Some(Str(CodeText(code)))
    ensures WrapError(ErrorThrown(IpcxError(code, message, stack)), newStack).name == Str("IpcxError")
  {
  }

  /** Unwrapping an envelope object throws an Error with the envelope's name and message. */
  lemma UnwrapEnvelope(env: Envelope, newStack: string)
    ensures UnwrapError(ToValue(env), newStack) == Rethrown(ErrorObject(
      env.name,
      env.message,
      if Truthy(env.stack) then env.stack else Str(newStack),
      if env.code.Some? && Truthy(env.code.value) then env.code.value else Undefined))
  {
    ToValueGet(env);
    EnvelopeRecognised(env);
  }

  /**
   * Unwrapping a wrapped Error throws an Error with the same message, the
   * same name (or "Error" for a falsy one), and the same code and stack
   * when those are truthy.
   */
  lemma UnwrapWrapError(err: ErrorObject, newStack: string, stack2: string)
    ensures UnwrapError(ToValue(WrapError(ErrorThrown(err), newStack)), stack2) == Rethrown(ErrorObject(
      if Truthy(err.name) then err.name else Str("Error"),
      err.message,
      if Truthy(err.stack) then err.stack else Str(stack2),
      if Truthy(err.code) then err.code else Undefined))
  {
    UnwrapEnvelope(WrapError(ErrorThrown(err), newStack), stack2);
  }

  /** Unwrapping a wrapped non-Error value throws an Error whose message is String(value). */
  lemma UnwrapWrapValue(v: Value, newStack: string, stack2: string)
    ensures UnwrapError(ToValue(WrapError(ValueThrown(v), newStack)), stack2) ==
      Rethrown(ErrorObject(Str("Error"), ToStr(v), Str(if newStack != "" then newStack else stack2), Undefined))
  {
    UnwrapEnvelope(WrapError(ValueThrown(v), newStack), stack2);
  }
}
