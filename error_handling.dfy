/**
 * The renderer's error handler: the bounded log of recent errors, the
 * listeners notified of each one, the statistics over the log, and the
 * validation of a configuration object against a schema.
 * Source: src/utils/error-handling.js
 *
 * The clock is a parameter (the ISO timestamp text); the console, the user
 * notification widgets and the listeners' own effects are not modelled:
 * the handler records which listener was called with which entry and
 * which entries were passed on to the user notification.
 */
module ErrorHandling {
  import opened Wrappers
  import opened Strings
  import opened JsValues

  /** An EscrcpyError (or an instance of one of its subclasses). */
  datatype EscrcpyError = EscrcpyError(name: string, message: string, code: Value, details: Value, timestamp: string)

  /** What handleError is given: an EscrcpyError instance or any other value. */
  datatype Thrown = Escrcpy(err: EscrcpyError) | Other(v: Value)

  /** One entry of the error log (the browser's userAgent and URL are not modelled). */
  datatype ErrorInfo = ErrorInfo(error: EscrcpyError, context: Value, severity: Value, timestamp: string)

  /** A listener, compared by identity as indexOf compares functions. */
  type Callback = nat

  /** How many entries the log keeps. */
  const MaxErrors := 100

  /** How many entries getErrorStats reports as recent. */
  const RecentCount := 10

  const UnknownErrorCode := "UNKNOWN_ERROR"

  /** The TypeError thrown when handleError reads the message of null or undefined. */
  const MessageTypeError := "Cannot read properties of null or undefined (reading 'message')"

  /** The TypeError thrown when the severity has no toUpperCase method. */
  const SeverityTypeError := "severity.toUpperCase is not a function"

  /** The text Error(message) keeps: "" for undefined, else String(message). */
  function MessageText(message: Value): string {
    if message.Undefined? then "" else ToStr(message)
  }

  /**
   * new EscrcpyError(message, code, details): code defaults to
   * 'UNKNOWN_ERROR' and details to {} when undefined.
   */
  function NewEscrcpyError(message: Value, code: Value, details: Value, timestamp: string): (e: EscrcpyError)
    ensures e.name == "EscrcpyError" && e.message == MessageText(message)
    ensures e.code == (if code.Undefined? then Str(UnknownErrorCode) else code)
    ensures e.details == (if details.Undefined? then Obj([]) else details)
  {
    EscrcpyError(
      "EscrcpyError",
      MessageText(message),
      if code.Undefined? then Str(UnknownErrorCode) else code,
      if details.Undefined? then Obj([]) else details,
      timestamp)
  }

  /**
   * The error handleError logs: an EscrcpyError as it is, any other value
   * wrapped in a new EscrcpyError with code UNKNOWN_ERROR, its message and
   * the original under details.originalError; None when the value is null
   * or undefined and reading its message throws.
   */
  function AsEscrcpyError(error: Thrown, timestamp: string): (r: Option<EscrcpyError>)
    ensures r.None? <==> error.Other? && (error.v.Undefined? || error.v.Null?)
    ensures error.Escrcpy? ==> r == Some(error.err)
    ensures r.Some? && error.Other? ==>
      && r.value.code == Str(UnknownErrorCode)
      && r.value.message == MessageText(Get(error.v, "message"))
      && r.value.details == Obj([("originalError", error.v)])
  {
    match error
    case Escrcpy(e) => Some(e)
    case Other(v) =>
      if v.Undefined? || v.Null? then None
      else Some(NewEscrcpyError(Get(v, "message"), Str(UnknownErrorCode), Obj([("originalError", v)]), timestamp))
  }

  /** The last `n` entries of a sequence, or all of them when there are fewer: slice(-n). */
  function Tail<T>(xs: seq<T>, n: nat): (r: seq<T>)
    ensures |r| == if |xs| <= n then |xs| else n
    ensures r == xs[|xs| - |r|..]
  {
    if |xs| <= n then xs else xs[|xs| - n..]
  }

  /** Keeping the last n entries of a log that already kept them, after appending, is keeping the last n of the whole. */
  lemma {:induction false} TailAppend<T>(history: seq<T>, x: T, n: nat)
    requires n > 0
    ensures Tail(Tail(history, n) + [x], n) == Tail(history + [x], n)
  {
    var t := Tail(history, n);
    var h := history + [x];
    if |history| > n {
      assert t + [x] == h[|h| - n - 1..];
      assert (t + [x])[1..] == h[|h| - n..];
    }
  }

  /** Array.prototype.indexOf: the first position of `cb`, or -1. */
  function IndexOf(callbacks: seq<Callback>, cb: Callback): (r: int)
    ensures -1 <= r < |callbacks|
    ensures r == -1 <==> cb !in callbacks
    ensures r >= 0 ==> callbacks[r] == cb && cb !in callbacks[..r]
  {
    if callbacks == [] then -1
    else if callbacks[0] == cb then 0
    else
      var j := IndexOf(callbacks[1..], cb);
      assert j >= 0 ==> callbacks[..j + 1] == [callbacks[0]] + callbacks[1..][..j];
      if j < 0 then -1 else j + 1
  }

  /**
   * Remove the first registration of `cb`, when there is one:
   * callbacks.splice(callbacks.indexOf(cb), 1). Exactly one registration
   * of `cb` goes, and the others keep their order.
   */
  function RemoveFirst(callbacks: seq<Callback>, cb: Callback): (r: seq<Callback>)
    ensures cb !in callbacks ==> r == callbacks
    ensures cb in callbacks ==> multiset(r) == multiset(callbacks) - multiset{cb} && |r| == |callbacks| - 1
    ensures cb in callbacks ==> var i := IndexOf(callbacks, cb); r == callbacks[..i] + callbacks[i + 1..]
  {
    var i := IndexOf(callbacks, cb);
    if i < 0 then callbacks
    else
      assert callbacks == callbacks[..i] + [cb] + callbacks[i + 1..];
      callbacks[..i] + callbacks[i + 1..]
  }

  /** Removing a callback leaves every other callback's number of registrations as it was. */
  lemma RemoveFirstOthers(callbacks: seq<Callback>, cb: Callback, other: Callback)
    requires other != cb
    ensures multiset(RemoveFirst(callbacks, cb))[other] == multiset(callbacks)[other]
  {
  }

  /** The calls notifyListeners makes: each listener, in order, with the entry. */
  function Deliveries(callbacks: seq<Callback>, info: ErrorInfo): (r: seq<(Callback, ErrorInfo)>)
    ensures |r| == |callbacks| && forall i :: 0 <= i < |r| ==> r[i] == (callbacks[i], info)
  {
    seq(|callbacks|, i requires 0 <= i < |callbacks| => (callbacks[i], info))
  }

  /** A counter object after `(counts[key] || 0) + 1`. */
  function Bump(counts: map<string, nat>, key: string): (r: map<string, nat>)
    ensures r.Keys == counts.Keys + {key}
    ensures r[key] == (if key in counts then counts[key] else 0) + 1
    ensures forall k :: k in counts && k != key ==> r[k] == counts[k]
  {
    counts[key := if key in counts then counts[key] + 1 else 1]
  }

  /** The counter object built by bumping each key in turn. */
  function Tally(keys: seq<string>): (r: map<string, nat>)
    ensures forall k :: k in r <==> k in keys
  {
    if keys == [] then map[] else Bump(Tally(keys[..|keys| - 1]), keys[|keys| - 1])
  }

  /** The sum of a counter object's values. */
  ghost function Total(counts: map<string, nat>): nat
    decreases |counts|
  {
    if counts == map[] then 0
    else
      var k :| k in counts;
      counts[k] + Total(counts - {k})
  }

  /** The sum does not depend on which key is taken first. */
  lemma {:induction false} TotalRemove(counts: map<string, nat>, key: string)
    requires key in counts
    ensures Total(counts) == counts[key] + Total(counts - {key})
    decreases |counts|
  {
    var k :| k in counts && Total(counts) == counts[k] + Total(counts - {k});
    if k != key {
      TotalRemove(counts - {k}, key);
      TotalRemove(counts - {key}, k);
      assert counts - {k} - {key} == counts - {key} - {k};
    }
  }

  /** One more occurrence adds one to the sum. */
  lemma TotalBump(counts: map<string, nat>, key: string)
    ensures Total(Bump(counts, key)) == Total(counts) + 1
  {
    var b := Bump(counts, key);
    TotalRemove(b, key);
    if key in counts {
      TotalRemove(counts, key);
      assert b - {key} == counts - {key};
    } else {
      assert b - {key} == counts;
    }
  }

  /** A tally's counts add up to the number of keys tallied. */
  lemma {:induction false} TallyTotal(keys: seq<string>)
    ensures Total(Tally(keys)) == |keys|
  {
    if keys != [] {
      TallyTotal(keys[..|keys| - 1]);
      TotalBump(Tally(keys[..|keys| - 1]), keys[|keys| - 1]);
    }
  }

  /** Tallying one more key bumps it. */
  lemma TallySnoc(keys: seq<string>, key: string)
    ensures Tally(keys + [key]) == Bump(Tally(keys), key)
  {
    assert (keys + [key])[..|keys|] == keys;
  }

  /** The property key each entry is counted under in bySeverity. */
  function SeverityKeys(errors: seq<ErrorInfo>): (r: seq<string>)
    ensures |r| == |errors|
  {
    if errors == [] then [] else SeverityKeys(errors[..|errors| - 1]) + [ToStr(errors[|errors| - 1].severity)]
  }

  /** The property key each entry is counted under in byCode. */
  function CodeKeys(errors: seq<ErrorInfo>): (r: seq<string>)
    ensures |r| == |errors|
  {
    if errors == [] then [] else CodeKeys(errors[..|errors| - 1]) + [ToStr(errors[|errors| - 1].error.code)]
  }

  /** Each entry's severity key sits at its position. */
  lemma {:induction false} SeverityKeysAt(errors: seq<ErrorInfo>)
    ensures forall i :: 0 <= i < |errors| ==> SeverityKeys(errors)[i] == ToStr(errors[i].severity)
  {
    if errors != [] {
      var init := errors[..|errors| - 1];
      SeverityKeysAt(init);
      assert forall i :: 0 <= i < |init| ==> errors[i] == init[i];
    }
  }

  /** Each entry's code key sits at its position. */
  lemma {:induction false} CodeKeysAt(errors: seq<ErrorInfo>)
    ensures forall i :: 0 <= i < |errors| ==> CodeKeys(errors)[i] == ToStr(errors[i].error.code)
  {
    if errors != [] {
      var init := errors[..|errors| - 1];
      CodeKeysAt(init);
      assert forall i :: 0 <= i < |init| ==> errors[i] == init[i];
    }
  }

  datatype ErrorStats = ErrorStats(total: nat, bySeverity: map<string, nat>, byCode: map<string, nat>, recent: seq<ErrorInfo>)

  /** What getErrorStats reports for a log. */
  function StatsOf(errors: seq<ErrorInfo>): ErrorStats {
    ErrorStats(|errors|, Tally(SeverityKeys(errors)), Tally(CodeKeys(errors)), Tail(errors, RecentCount))
  }

  /**
   * The statistics' total is the log's length, the per-severity counts and
   * the per-code counts each add up to it, a severity or code is counted
   * exactly when some entry has it, and the recent entries are the last
   * ten.
   */
  lemma StatsTotals(errors: seq<ErrorInfo>)
    ensures StatsOf(errors).total == |errors|
    ensures Total(StatsOf(errors).bySeverity) == |errors| && Total(StatsOf(errors).byCode) == |errors|
    ensures StatsOf(errors).recent == errors[|errors| - |StatsOf(errors).recent|..]
    ensures |StatsOf(errors).recent| == if |errors| < RecentCount then |errors| else RecentCount
  {
    TallyTotal(SeverityKeys(errors));
    TallyTotal(CodeKeys(errors));
  }

  /** A severity is counted exactly when some entry of the log has it. */
  lemma StatsSeverities(errors: seq<ErrorInfo>, k: string)
    ensures k in StatsOf(errors).bySeverity <==> exists i :: 0 <= i < |errors| && ToStr(errors[i].severity) == k
  {
    SeverityKeysAt(errors);
    var sk := SeverityKeys(errors);
    if k in sk {
      var i :| 0 <= i < |sk| && sk[i] == k;
    }
  }

  /** A code is counted exactly when some entry of the log has it. */
  lemma StatsCodes(errors: seq<ErrorInfo>, k: string)
    ensures k in StatsOf(errors).byCode <==> exists i :: 0 <= i < |errors| && ToStr(errors[i].error.code) == k
  {
    CodeKeysAt(errors);
    var ck := CodeKeys(errors);
    if k in ck {
      var i :| 0 <= i < |ck| && ck[i] == k;
    }
  }

  /** What exportErrors returns. */
  datatype Export = Export(errors: seq<ErrorInfo>, stats: ErrorStats, timestamp: string)

  /** The ErrorHandler: its log, its listeners and what it passed on. */
  class ErrorHandler {
    var errors: seq<ErrorInfo>
    /** Every entry logged since the log was last cleared. */
    ghost var history: seq<ErrorInfo>
    /** Event name to its listeners, in registration order. */
    var listeners: map<string, seq<Callback>>
    /** The listener calls made so far. */
    var delivered: seq<(Callback, ErrorInfo)>
    /** The entries passed on to showUserNotification. */
    var notices: seq<ErrorInfo>

    /** The log holds exactly the (at most 100) most recent entries logged. */
    ghost predicate Valid()
      reads this
    {
      errors == Tail(history, MaxErrors)
    }

    constructor ()
      ensures Valid()
      ensures errors == [] && history == [] && listeners == map[] && delivered == [] && notices == []
    {
      errors := [];
      history := [];
      listeners := map[];
      delivered := [];
      notices := [];
      assert Tail<ErrorInfo>([], MaxErrors) == [];
    }

    /** The listeners of an event: `this.listeners.get(event) || []`. */
    function Callbacks(event: string): seq<Callback>
      reads this
    {
      if event in listeners then listeners[event] else []
    }

    /** addListener: append the callback to the event's listeners. */
    method AddListener(event: string, cb: Callback)
      modifies this`listeners
      ensures listeners == old(listeners)[event := old(Callbacks(event)) + [cb]]
    {
      if event !in listeners {
        listeners := listeners[event := []];
      }
      listeners := listeners[event := listeners[event] + [cb]];
    }

    /** removeListener: remove the first registration of the callback, if any. */
    method RemoveListener(event: string, cb: Callback)
      modifies this`listeners
      ensures event in old(listeners) ==> listeners == old(listeners)[event := RemoveFirst(old(listeners)[event], cb)]
      ensures event !in old(listeners) ==> listeners == old(listeners)
    {
      if event in listeners {
        listeners := listeners[event := RemoveFirst(listeners[event], cb)];
      }
    }

    /** notifyListeners: call every 'error' listener, in order, with the entry. */
    method NotifyListeners(info: ErrorInfo)
      modifies this`delivered
      ensures delivered == old(delivered) + Deliveries(Callbacks("error"), info)
    {
      var callbacks := Callbacks("error");
      var i := 0;
      while i < |callbacks|
        invariant 0 <= i <= |callbacks|
        invariant delivered == old(delivered) + Deliveries(callbacks[..i], info)
      {
        assert Deliveries(callbacks[..i + 1], info) == Deliveries(callbacks[..i], info) + [(callbacks[i], info)];
        delivered := delivered + [(callbacks[i], info)];
        i := i + 1;
      }
      assert callbacks[..i] == callbacks;
    }

    /** Append an entry to the log, dropping the oldest beyond maxErrors. */
    method Log(info: ErrorInfo)
      requires Valid()
      modifies this`errors, this`history
      ensures Valid() && history == old(history) + [info]
      ensures errors == Tail(old(errors) + [info], MaxErrors)
    {
      TailAppend(history, info, MaxErrors);
      errors, history := errors + [info], history + [info];
      if |errors| > MaxErrors {
        errors := errors[|errors| - MaxErrors..];
      }
    }

    /**
     * handleError: log the entry for the error (a non-EscrcpyError wrapped
     * with code UNKNOWN_ERROR; an omitted context and severity take their
     * defaults null and 'error'), then notify the listeners, and pass 'error'
     * and 'critical' entries on to the user notification. Reading the
     * message of null or undefined throws before anything happens; a
     * severity that is not a string throws after the entry is logged.
     */
    method HandleError(error: Thrown, context: Value, severity: Value, now: string) returns (r: Result<ErrorInfo, string>)
      requires Valid()
      modifies this`errors, this`history, this`delivered, this`notices
      ensures Valid()
      ensures AsEscrcpyError(error, now).None? ==>
        r == Err(MessageTypeError) && errors == old(errors) && history == old(history)
      ensures AsEscrcpyError(error, now).Some? ==>
        var sev := if severity.Undefined? then Str("error") else severity;
        var ctx := if context.Undefined? then Null else context;
        var info := ErrorInfo(AsEscrcpyError(error, now).value, ctx, sev, now);
        && history == old(history) + [info]
        && errors == Tail(old(errors) + [info], MaxErrors)
        && (r.Ok? <==> sev.Str?)
        && (r.Ok? ==> r.value == info)
        && delivered == (if sev.Str? then old(delivered) + Deliveries(Callbacks("error"), info) else old(delivered))
        && notices == (if sev == Str("error") || sev == Str("critical") then old(notices) + [info] else old(notices))
      ensures AsEscrcpyError(error, now).None? ==> delivered == old(delivered) && notices == old(notices)
    {
      var e := AsEscrcpyError(error, now);
      if e.None? {
        return Err(MessageTypeError);
      }
      var sev := if severity.Undefined? then Str("error") else severity;
      var ctx := if context.Undefined? then Null else context;
      var info := ErrorInfo(e.value, ctx, sev, now);
      Log(info);
      if !sev.Str? {
        return Err(SeverityTypeError);
      }
      NotifyListeners(info);
      if sev == Str("error") || sev == Str("critical") {
        notices := notices + [info];
      }
      r := Ok(info);
    }

    /** getErrorStats: one pass over the log counting severities and codes. */
    method GetErrorStats() returns (stats: ErrorStats)
      ensures stats == StatsOf(errors)
    {
      var bySeverity: map<string, nat> := map[];
      var byCode: map<string, nat> := map[];
      var i := 0;
      while i < |errors|
        invariant 0 <= i <= |errors|
        invariant bySeverity == Tally(SeverityKeys(errors[..i])) && byCode == Tally(CodeKeys(errors[..i]))
      {
        var info := errors[i];
        assert errors[..i + 1][..i] == errors[..i];
        TallySnoc(SeverityKeys(errors[..i]), ToStr(info.severity));
        TallySnoc(CodeKeys(errors[..i]), ToStr(info.error.code));
        bySeverity := Bump(bySeverity, ToStr(info.severity));
        byCode := Bump(byCode, ToStr(info.error.code));
        i := i + 1;
      }
      assert errors[..i] == errors;
      stats := ErrorStats(|errors|, bySeverity, byCode, Tail(errors, RecentCount));
    }

    /** clearErrors */
    method ClearErrors()
      modifies this`errors, this`history
      ensures Valid() && errors == [] && history == []
    {
      errors, history := [], [];
    }

    /** exportErrors: the log, its statistics and the time of export. */
    method ExportErrors(now: string) returns (r: Export)
      ensures r == Export(errors, StatsOf(errors), now)
    {
      var stats := GetErrorStats();
      r := Export(errors, stats, now);
    }
  }

  /** What one schema key decides, or the first failure found for it. */
  datatype Verdict = Accepted | Missing(key: string) | WrongType(key: string, expected: Value, actual: string) | Thrown(key: string)

  /** The values the `in` operator accepts on its right. */
  predicate IsObject(v: Value) {
    v.Obj? || v.Arr? || v.Fn?
  }

  /**
   * The checks of one schema key: reading .required or .type of a null or
   * undefined schema entry throws, as does `key in config` on a config that
   * is not an object; a required key absent from the config is missing; a
   * present key whose typeof differs from a truthy expected type is
   * mistyped.
   */
  function KeyVerdict(config: Value, schema: seq<(string, Value)>, key: string): Verdict {
    var spec := Get(Obj(schema), key);
    if spec.Undefined? || spec.Null? then Thrown(key)
    else if Truthy(Get(spec, "required")) && !IsObject(config) then Thrown(key)
    else if Truthy(Get(spec, "required")) && !HasProperty(config, key) then Missing(key)
    else if !IsObject(config) then Thrown(key)
    else if HasProperty(config, key) && Truthy(Get(spec, "type"))
      && !StrictEquals(Str(TypeOf(Get(config, key))), Get(spec, "type"))
    then WrongType(key, Get(spec, "type"), TypeOf(Get(config, key)))
    else Accepted
  }

  /** The first failing key's verdict, in the order the keys are visited. */
  function FirstFailure(config: Value, schema: seq<(string, Value)>, keys: seq<string>): (r: Verdict)
    ensures r == Accepted <==> forall i :: 0 <= i < |keys| ==> KeyVerdict(config, schema, keys[i]) == Accepted
    ensures r != Accepted ==> exists i :: 0 <= i < |keys| && r == KeyVerdict(config, schema, keys[i])
  {
    if keys == [] then Accepted
    else if KeyVerdict(config, schema, keys[0]) != Accepted then KeyVerdict(config, schema, keys[0])
    else
      var r := FirstFailure(config, schema, keys[1..]);
      assert forall i :: 1 <= i < |keys| ==> keys[i] == keys[1..][i - 1];
      r
  }

  /** The schema's keys in for-in order (the entries are kept in that order). */
  function SchemaKeys(schema: seq<(string, Value)>): (r: seq<string>)
    ensures |r| == |schema| && forall i :: 0 <= i < |r| ==> r[i] == schema[i].0
  {
    seq(|schema|, i requires 0 <= i < |schema| => schema[i].0)
  }

  /**
   * validateConfiguration: true exactly when every schema key passes its
   * checks; the first failure, thrown and caught, makes it false.
   */
  method ValidateConfiguration(config: Value, schema: seq<(string, Value)>) returns (ok: bool)
    ensures ok <==> FirstFailure(config, schema, SchemaKeys(schema)) == Accepted
  {
    var keys := SchemaKeys(schema);
    var i := 0;
    while i < |schema|
      invariant 0 <= i <= |schema|
      invariant FirstFailure(config, schema, keys) == FirstFailure(config, schema, keys[i..])
    {
      var key := schema[i].0;
      var spec := Get(Obj(schema), key);
      assert keys[i..][0] == key && keys[i..][1..] == keys[i + 1..];
      if spec.Undefined? || spec.Null? {
        return false;
      }
      var required := Truthy(Get(spec, "required"));
      if required && !IsObject(config) {
        return false;
      }
      if required && !HasProperty(config, key) {
        return false;
      }
      if !IsObject(config) {
        return false;
      }
      if HasProperty(config, key) && Truthy(Get(spec, "type")) {
        var actualType := TypeOf(Get(config, key));
        if !StrictEquals(Str(actualType), Get(spec, "type")) {
          return false;
        }
      }
      i := i + 1;
    }
    return true;
  }

  /** A required key missing from an object config makes the validation fail. */
  lemma MissingRequiredRejected(config: Value, schema: seq<(string, Value)>, i: int)
    requires IsObject(config) && 0 <= i < |schema|
    requires !Get(Obj(schema), schema[i].0).Undefined? && !Get(Obj(schema), schema[i].0).Null?
    requires Truthy(Get(Get(Obj(schema), schema[i].0), "required")) && !HasProperty(config, schema[i].0)
    ensures FirstFailure(config, schema, SchemaKeys(schema)) != Accepted
  {
    assert KeyVerdict(config, schema, SchemaKeys(schema)[i]) == Missing(schema[i].0);
  }

  /** A present key whose typeof differs from the schema's type makes the validation fail. */
  lemma TypeMismatchRejected(config: Value, schema: seq<(string, Value)>, i: int)
    requires IsObject(config) && 0 <= i < |schema|
    requires var spec := Get(Obj(schema), schema[i].0);
      && !spec.Undefined? && !spec.Null?
      && HasProperty(config, schema[i].0) && Truthy(Get(spec, "type"))
      && !StrictEquals(Str(TypeOf(Get(config, schema[i].0))), Get(spec, "type"))
    ensures FirstFailure(config, schema, SchemaKeys(schema)) != Accepted
  {
    assert KeyVerdict(config, schema, SchemaKeys(schema)[i]) != Accepted;
  }

  /** An empty schema accepts any config, even one that is not an object. */
  lemma EmptySchemaAccepts(config: Value)
    ensures FirstFailure(config, [], SchemaKeys([])) == Accepted
  {
  }
}
