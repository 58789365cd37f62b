/**
 * stringify: turns an options object into a scrcpy command-line argument
 * string (camelCase keys become --kebab-case flags, values are quoted when
 * they hold whitespace or quotes). The result is pasted into a command that
 * a POSIX shell reads.
 * Source: src/utils/command/index.js
 */
module CommandArgs {
  import opened Wrappers
  import opened Strings
  import opened JsValues

  /** name.replace(/[A-Z]/g, letter => `-${letter.toLowerCase()}`) */
  function KebabCase(name: string): (r: string)
    ensures forall i :: 0 <= i < |r| ==> !IsUpper(r[i])
    ensures |r| >= |name|
  {
    if name == [] then []
    else (if IsUpper(name[0]) then ['-', LowerChar(name[0])] else [name[0]]) + KebabCase(name[1..])
  }

  /** The reading of a kebab-case flag back into camelCase: "-x" becomes "X". */
  function CamelCase(s: string): string {
    if s == [] then []
    else if |s| >= 2 && s[0] == '-' && IsLower(s[1]) then [UpperChar(s[1])] + CamelCase(s[2..])
    else [s[0]] + CamelCase(s[1..])
  }

  /** A camelCase name without dashes survives the trip to a flag name and back. */
  lemma {:induction false} CamelCaseOfKebabCase(name: string)
    requires '-' !in name
    ensures CamelCase(KebabCase(name)) == name
  {
    if name != [] {
      CamelCaseOfKebabCase(name[1..]);
      var rest := KebabCase(name[1..]);
      if IsUpper(name[0]) {
        assert KebabCase(name) == ['-', LowerChar(name[0])] + rest;
        assert (['-', LowerChar(name[0])] + rest)[2..] == rest;
      } else {
        assert KebabCase(name) == [name[0]] + rest;
        assert ([name[0]] + rest)[1..] == rest;
      }
    }
  }

  /** formatParamName */
  function FormatParamName(name: string): (r: Result<string, string>)
    ensures r.Err? <==> name == []
    ensures r.Ok? ==> |r.value| >= 1 && r.value[0] == '-'
    ensures r.Ok? && name[0] != '-' && Utf16Length(name) > 1 ==>
      StartsWith(r.value, "--") && r.value[2..] == KebabCase(name)
    ensures r.Ok? && name[0] == '-' ==> r.value == name
    ensures Utf16Length(name) == 1 && name[0] != '-' ==> r == Ok("-" + name)
  {
    if name == [] then Err("Parameter name must be a non-empty string")
    else if StartsWith(name, "-") then Ok(name)
    else if Utf16Length(name) == 1 then Ok("-" + name)
    else Ok("--" + KebabCase(name))
  }

  /** `.length` counts code units, so one character above U+FFFF is a two-unit name and gets "--". */
  lemma AstralParamName(c: char)
    requires c as int >= 0x1_0000
    ensures FormatParamName([c]) == Ok("--" + KebabCase([c]))
  {
    assert Utf16Length([c]) == 2 by {
      assert [c][1..] == [];
    }
  }

  /** /[\s"']/.test(value) */
  predicate NeedsQuotes(s: string) {
    exists i :: 0 <= i < |s| && (IsWhitespace(s[i]) || s[i] == '"' || s[i] == '\'')
  }

  /** The quoting as written: only double quotes are escaped. */
  function QuoteAsWritten(s: string): string {
    "\"" + ReplaceAllChar(s, '"', "\\\"") + "\""
  }

  /** Backslash-escapes backslashes and double quotes, as POSIX double-quoting needs. */
  function Escape(s: string): (r: string)
    ensures '"' !in s && '\\' !in s ==> r == s
  {
    if s == [] then []
    else (if s[0] == '"' || s[0] == '\\' then ['\\', s[0]] else [s[0]]) + Escape(s[1..])
  }

  /** The quoting with backslashes escaped as well. */
  function Quote(s: string): string {
    "\"" + Escape(s) + "\""
  }

  /**
   * How a POSIX shell reads the rest of a double-quoted word after its opening
   * quote: \" and \\ stand for " and \, other characters stand for
   * themselves, and the word must end at the closing quote. None means the
   * quote is never closed, or text follows it.
   */
  function Unquote(body: string): (r: Option<string>)
  {
    if body == [] then None
    else if body[0] == '"' then (if |body| == 1 then Some([]) else None)
    else if body[0] == '\\' && |body| >= 2 && (body[1] == '"' || body[1] == '\\') then
      match Unquote(body[2..])
      case None => None
      case Some(rest) => Some([body[1]] + rest)
    else
      match Unquote(body[1..])
      case None => None
      case Some(rest) => Some([body[0]] + rest)
  }

  /** The shell's reading of one word: a double-quoted word is unquoted, a bare word is itself. */
  function ShellWord(w: string): Option<string> {
    if |w| >= 1 && w[0] == '"' then Unquote(w[1..]) else Some(w)
  }

  lemma {:induction false} UnquoteEscape(s: string)
    ensures Unquote(Escape(s) + "\"") == Some(s)
  {
    if s != [] {
      UnquoteEscape(s[1..]);
      var rest := Escape(s[1..]) + "\"";
      assert s == [s[0]] + s[1..];
      if s[0] == '"' || s[0] == '\\' {
        assert Escape(s) + "\"" == ['\\', s[0]] + rest;
        assert (['\\', s[0]] + rest)[2..] == rest;
      } else {
        assert Escape(s) + "\"" == [s[0]] + rest;
        assert ([s[0]] + rest)[1..] == rest;
      }
    }
  }

  /** The shell reads the corrected quoting of any text back as that text. */
  lemma QuoteRoundTrip(s: string)
    ensures ShellWord(Quote(s)) == Some(s)
  {
    UnquoteEscape(s);
    assert Quote(s)[1..] == Escape(s) + "\"";
  }

  /** Without backslashes in the text, the two quotings agree. */
  lemma {:induction false} QuotingsAgreeWithoutBackslash(s: string)
    requires '\\' !in s
    ensures QuoteAsWritten(s) == Quote(s)
  {
    EscapeIsReplace(s);
  }

  lemma {:induction false} EscapeIsReplace(s: string)
    requires '\\' !in s
    ensures Escape(s) == ReplaceAllChar(s, '"', "\\\"")
  {
    if s != [] {
      EscapeIsReplace(s[1..]);
    }
  }

  /** A value ending in a backslash, such as "a \", leaves its closing quote escaped: the shell never sees the word end. */
  lemma QuoteAsWrittenUnterminated()
    ensures QuoteAsWritten("a \\") == "\"a \\\""
    ensures ShellWord(QuoteAsWritten("a \\")) == None
  {
    assert ReplaceAllChar("a \\", '"', "\\\"") == "a \\";
    assert QuoteAsWritten("a \\")[1..] == "a \\\"";
    assert Unquote("\\\"") == Unquote([]) by { assert "\\\""[2..] == []; }
    assert Unquote(" \\\"") == None by { assert " \\\""[1..] == "\\\""; }
    assert "a \\\""[1..] == " \\\"";
  }

  /**
   * formatValue for a string: "" for the empty string, quoted as written when
   * needed, else as it is. The shell reads the word back as the text whenever
   * the text has no backslash; FormatStringUnterminated shows a text with one
   * that it does not.
   */
  function FormatString(s: string): (r: string)
    ensures r != []
    ensures '\\' !in s ==> ShellWord(r) == Some(s)
    ensures s != [] && !NeedsQuotes(s) ==> r == s
    ensures NeedsQuotes(s) ==> r[0] == '"'
  {
    if s == [] then "\"\""
    else if NeedsQuotes(s) then
      assert '\\' !in s ==> ShellWord(QuoteAsWritten(s)) == Some(s) by {
        if '\\' !in s {
          QuotingsAgreeWithoutBackslash(s);
          QuoteRoundTrip(s);
        }
      }
      QuoteAsWritten(s)
    else
      assert s[0] != '"' by { assert !(s[0] == '"'); }
      s
  }

  /** As written, the option value `a \` becomes a word the shell never closes. */
  lemma FormatStringUnterminated()
    ensures ShellWord(FormatString("a \\")) == None
  {
    assert NeedsQuotes("a \\") by { assert IsWhitespace("a \\"[1]); }
    QuoteAsWrittenUnterminated();
  }

  /** formatValue */
  function FormatValue(v: Value): (r: Result<string, string>)
    ensures r.Err? <==> v.Undefined? || v.Null? || v.NaN? || v.Infinity? || v.Obj? || v.Fn?
    ensures v.Str? ==> r == Ok(FormatString(v.s))
    ensures v.Str? && '\\' !in v.s ==> ShellWord(r.value) == Some(v.s)
    ensures v.Num? ==> r == Ok(IntToString(v.n))
    ensures v.Bool? ==> r == Ok("")
    ensures v.Arr? ==> r == Ok(FormatString(JoinItems(v.items, ",")))
    ensures v.Arr? && '\\' !in JoinItems(v.items, ",") ==> ShellWord(r.value) == Some(JoinItems(v.items, ","))
  {
    match v
    case Undefined => Err("Value cannot be null or undefined")
    case Null => Err("Value cannot be null or undefined")
    case Str(s) => Ok(FormatString(s))
    case Num(n) => Ok(IntToString(n))
    case NaN => Err("Number values must be finite")
    case Infinity(_) => Err("Number values must be finite")
    case Bool(_) => Ok("")
    case Arr(items) => Ok(FormatString(JoinItems(items, ",")))
    case Obj(_) => Err("Unsupported value type: object")
    case Fn(_, _) => Err("Unsupported value type: function")
  }

  /** [null, undefined, false, ''].includes(value) */
  predicate Skipped(v: Value) {
    v.Null? || v.Undefined? || v == Bool(false) || v == Str("")
  }

  /** The arguments the forEach over an array value pushes, for its first n items. */
  function ItemArgs(paramName: string, items: seq<Value>): (r: Result<seq<string>, string>)
    ensures r.Ok? ==> forall k :: 0 <= k < |r.value| ==> StartsWith(r.value[k], paramName + "=")
    decreases |items|
  {
    if items == [] then Ok([])
    else
      var init := items[..|items| - 1];
      var item := items[|items| - 1];
      match ItemArgs(paramName, init)
      case Err(e) => Err(e)
      case Ok(args) =>
        if Skipped(item) then Ok(args)
        else match FormatValue(item)
          case Err(e) => Err(e)
          case Ok(fv) => if fv != "" then Ok(args + [paramName + "=" + fv]) else Ok(args)
  }

  /** The arguments one option contributes. */
  function EntryArgs(key: string, value: Value): (r: Result<seq<string>, string>)
    ensures Skipped(value) ==> r == Ok([])
    ensures r.Ok? ==> forall k :: 0 <= k < |r.value| ==> |r.value[k]| >= 1 && r.value[k][0] == '-'
  {
    if Skipped(value) then Ok([])
    else match FormatParamName(key)
      case Err(e) => Err(e)
      case Ok(name) =>
        if value.Bool? then Ok([name])
        else if value.Arr? then
          if value.items == [] then Ok([])
          else
            var r := ItemArgs(name, value.items);
            assert r.Ok? ==> forall k :: 0 <= k < |r.value| ==> r.value[k][0] == name[0] by {
              if r.Ok? {
                forall k | 0 <= k < |r.value| ensures r.value[k][0] == name[0] {
                  assert r.value[k][..|name + "="|] == name + "=";
                }
              }
            }
            r
        else match FormatValue(value)
          case Err(e) => Err(e)
          case Ok(fv) => if fv != "" then Ok([name + "=" + fv]) else Ok([])
  }

  /** The arguments of all options, in Object.entries order; the first error thrown wins. */
  function Args(entries: seq<(string, Value)>): (r: Result<seq<string>, string>)
    ensures r.Ok? ==> forall k :: 0 <= k < |r.value| ==> |r.value[k]| >= 1 && r.value[k][0] == '-'
    decreases |entries|
  {
    if entries == [] then Ok([])
    else
      var last := entries[|entries| - 1];
      match Args(entries[..|entries| - 1])
      case Err(e) => Err(e)
      case Ok(a) =>
        match EntryArgs(last.0, last.1)
        case Err(e) => Err(e)
        case Ok(b) => Ok(a + b)
  }

  /** stringify as a value: a string passes through, a plain object becomes its arguments joined by spaces. */
  function Stringify(options: Value): (r: Result<string, string>)
    ensures options.Str? ==> r == Ok(options.s)
    ensures !options.Str? && !options.Obj? ==> r == Err("Options must be a plain object")
  {
    match options
    case Str(s) => Ok(s)
    case Obj(entries) =>
      (match Args(entries)
       case Err(e) => Err(e)
       case Ok(a) => Ok(Join(a, " ")))
    case _ => Err("Options must be a plain object")
  }

  /** An option set to true becomes the bare flag; one set to text becomes flag=word, the word reading back as the text. */
  lemma EntryArgsMeaning(key: string, s: string)
    requires key != [] && s != []
    ensures EntryArgs(key, Bool(true)) == Ok([FormatParamName(key).value])
    ensures EntryArgs(key, Str(s)) == Ok([FormatParamName(key).value + "=" + FormatString(s)])
  {
  }

  /** stringify, pushing onto an argument list option by option as the source does. */
  method StringifyOptions(options: Value) returns (r: Result<string, string>)
    ensures r == Stringify(options)
  {
    if options.Str? {
      return Ok(options.s);
    }
    if !options.Obj? {
      return Err("Options must be a plain object");
    }
    var entries := options.entries;
    var args: seq<string> := [];
    var i := 0;
    while i < |entries|
      invariant 0 <= i <= |entries|
      invariant Args(entries[..i]) == Ok(args)
    {
      assert entries[..i + 1][..i] == entries[..i];
      var (key, value) := entries[i];
      assert entries[..i + 1][i] == (key, value);
      var pushed := PushEntry(key, value);
      if pushed.Err? {
        ArgsError(entries, i + 1);
        return Err(pushed.error);
      }
      args := args + pushed.value;
      i := i + 1;
    }
    assert entries[..i] == entries;
    return Ok(Join(args, " "));
  }

  /** The body of the loop over Object.entries(options): what one option pushes, or what it throws. */
  method PushEntry(key: string, value: Value) returns (r: Result<seq<string>, string>)
    ensures r == EntryArgs(key, value)
  {
    if Skipped(value) {
      return Ok([]);
    }
    var nameResult := FormatParamName(key);
    if nameResult.Err? {
      return Err(nameResult.error);
    }
    var paramName := nameResult.value;
    if value.Bool? {
      return Ok([paramName]);
    }
    if value.Arr? {
      if |value.items| == 0 {
        return Ok([]);
      }
      r := PushItems(paramName, value.items);
      return;
    }
    var formatted := FormatValue(value);
    if formatted.Err? {
      return Err(formatted.error);
    }
    if formatted.value != "" {
      return Ok([paramName + "=" + formatted.value]);
    }
    return Ok([]);
  }

  /** value.forEach(...) over an array option: one paramName=value per item that is not skipped. */
  method PushItems(paramName: string, items: seq<Value>) returns (r: Result<seq<string>, string>)
    ensures r == ItemArgs(paramName, items)
  {
    var pushed: seq<string> := [];
    var j := 0;
    while j < |items|
      invariant 0 <= j <= |items|
      invariant ItemArgs(paramName, items[..j]) == Ok(pushed)
    {
      assert items[..j + 1][..j] == items[..j];
      var item := items[j];
      if !Skipped(item) {
        var formatted := FormatValue(item);
        if formatted.Err? {
          ItemArgsError(paramName, items, j + 1);
          return Err(formatted.error);
        }
        if formatted.value != "" {
          pushed := pushed + [paramName + "=" + formatted.value];
        }
      }
      j := j + 1;
    }
    assert items[..j] == items;
    return Ok(pushed);
  }

  /** Once the forEach throws on some item, the whole array throws with that error. */
  lemma {:induction false} ItemArgsError(paramName: string, items: seq<Value>, n: nat)
    requires 1 <= n <= |items|
    requires ItemArgs(paramName, items[..n]).Err?
    ensures ItemArgs(paramName, items) == ItemArgs(paramName, items[..n])
    decreases |items| - n
  {
    if n < |items| {
      assert items[..n + 1][..n] == items[..n];
      ItemArgsError(paramName, items, n + 1);
    } else {
      assert items[..n] == items;
    }
  }

  /** Once one option throws, stringify throws with that error. */
  lemma {:induction false} ArgsError(entries: seq<(string, Value)>, n: nat)
    requires 1 <= n <= |entries|
    requires Args(entries[..n]).Err?
    ensures Args(entries) == Args(entries[..n])
    decreases |entries| - n
  {
    if n < |entries| {
      assert entries[..n + 1][..n] == entries[..n];
      ArgsError(entries, n + 1);
    } else {
      assert entries[..n] == entries;
    }
  }
}
