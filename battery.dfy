/**
 * parseBatteryDump: reads the "key: value" lines of `dumpsys battery` into a
 * raw record with camel-cased keys and derives the computed fields (charging
 * state, power source, percentage, scaled temperature and voltage).
 * Source: desktop/electron/middleware/adb/helpers/battery/index.js
 */
module Battery {
  import opened Wrappers
  import opened Strings
  import opened JsValues

  const HeaderMarker := "Battery Service state:"

  // ---------------------------------------------------------------------
  // camelCase (lodash), on keys made of ASCII letters, digits and separators
  // ---------------------------------------------------------------------

  predicate IsAlnum(c: char) {
    'a' <= c <= 'z' || 'A' <= c <= 'Z' || '0' <= c <= '9'
  }

  /** The position of the first character that is not a letter or digit, or |s|. */
  function WordEnd(s: string): (i: nat)
    ensures i <= |s|
    ensures forall j :: 0 <= j < i ==> IsAlnum(s[j])
    ensures i < |s| ==> !IsAlnum(s[i])
  {
    if s == [] || !IsAlnum(s[0]) then 0 else 1 + WordEnd(s[1..])
  }

  /** The words of a key: the maximal runs of letters and digits. */
  function Words(s: string): (r: seq<string>)
    ensures forall k :: 0 <= k < |r| ==> r[k] != []
    decreases |s|
  {
    var i := WordEnd(s);
    if i == |s| then (if s == [] then [] else [s])
    else (if i == 0 then [] else [s[..i]]) + Words(s[i + 1..])
  }

  /** upperFirst(toLower(word)) */
  function Capitalize(word: string): (r: string)
    ensures |r| == |word|
  {
    if word == [] then [] else [UpperChar(LowerChar(word[0]))] + ToLower(word[1..])
  }

  /** The compounder: the first word in lower case, every later word capitalised. */
  function Compound(words: seq<string>, first: bool): string {
    if words == [] then ""
    else (if first then ToLower(words[0]) else Capitalize(words[0])) + Compound(words[1..], false)
  }

  /**
   * camelCase(key), for keys whose words are separated by characters other than
   * letters and digits. lodash also splits inside a run of letters and digits
   * (at a hump, a letter-digit boundary or before a capitalised word after
   * capitals) and drops apostrophes first; this model does neither.
   */
  function CamelKey(key: string): string {
    Compound(Words(key), true)
  }

  predicate AlnumWord(w: string) {
    w != [] && forall i :: 0 <= i < |w| ==> IsAlnum(w[i])
  }

  lemma WordsOfWord(w: string, rest: string)
    requires AlnumWord(w)
    requires rest == [] || !IsAlnum(rest[0])
    ensures Words(w + rest) == [w] + (if rest == [] then [] else Words(rest[1..]))
  {
    WordEndOf(w, rest);
    var s := w + rest;
    if rest == [] {
      assert s == w;
    } else {
      assert s[..|w|] == w;
      assert s[|w| + 1..] == rest[1..];
    }
  }

  lemma {:induction false} WordEndOf(w: string, rest: string)
    requires forall i :: 0 <= i < |w| ==> IsAlnum(w[i])
    requires rest == [] || !IsAlnum(rest[0])
    ensures WordEnd(w + rest) == |w|
  {
    if w != [] {
      assert (w + rest)[1..] == w[1..] + rest;
      WordEndOf(w[1..], rest);
    } else {
      assert w + rest == rest;
    }
  }

  /** A key of two words separated by a space becomes the first word in lower case and the second capitalised. */
  lemma CamelKeyOfTwoWords(a: string, b: string)
    requires AlnumWord(a) && AlnumWord(b)
    ensures CamelKey(a + " " + b) == ToLower(a) + Capitalize(b)
  {
    WordsOfWord(a, " " + b);
    assert (a + " " + b) == a + (" " + b);
    assert (" " + b)[1..] == b;
    WordsOfWord(b, []);
    assert b + [] == b;
    assert Words(a + " " + b) == [a, b];
    assert [a, b][1..] == [b];
    assert [b][1..] == [];
    assert Compound([b], false) == Capitalize(b) + "";
  }

  /** A one-word key becomes that word in lower case. */
  lemma CamelKeyOfWord(a: string)
    requires AlnumWord(a)
    ensures CamelKey(a) == ToLower(a)
  {
    WordsOfWord(a, []);
    assert a + [] == a;
    assert Words(a) == [a];
    assert [a][1..] == [];
    assert Compound([a], true) == ToLower(a) + "";
  }

  // ---------------------------------------------------------------------
  // parseValue and the line loop
  // ---------------------------------------------------------------------

  /** parseValue: "true"/"false" in any letter case, then a number, else the trimmed text. */
  function ParseValue(value: string): (r: Value)
    ensures r.Bool? || r.Num? || r.Infinity? || r.Str?
    ensures r.Str? ==> r.s == Trim(value)
  {
    var v := Trim(value);
    if ToLower(v) == "true" then Bool(true)
    else if ToLower(v) == "false" then Bool(false)
    else if !StrToNumber(v).NaN? && v != "" then StrToNumber(v)
    else Str(v)
  }

  /** The decimal text of an integer is read back as that number. */
  lemma ParseValueOfInt(n: int)
    ensures ParseValue(IntToString(n)) == Num(n)
  {
    var s := IntToString(n);
    var d := if n < 0 then NatToString(-n) else NatToString(n);
    assert IsDigit(d[|d| - 1]) && s[|s| - 1] == d[|d| - 1];
    assert !IsWhitespace(s[0]) by {
      if n >= 0 { assert IsDigit(d[0]); }
    }
    TrimUnchanged(s);
    assert ToLower(s)[|s| - 1] == s[|s| - 1];
    assert ToLower(s) != "true" && ToLower(s) != "false";
    StrToNumberOfIntToString(n);
  }

  /** "true" and "false" in any letter case become booleans. */
  lemma ParseValueOfBool(v: string)
    requires ToLower(v) == "true" || ToLower(v) == "false"
    ensures ParseValue(v) == Bool(ToLower(v) == "true")
  {
    var l := ToLower(v);
    assert !IsWhitespace(v[0]) by { assert LowerChar(v[0]) == l[0]; }
    assert !IsWhitespace(v[|v| - 1]) by { assert LowerChar(v[|v| - 1]) == l[|l| - 1]; }
    TrimUnchanged(v);
    assert "true" != "false";
  }

  /**
   * What one line contributes to the raw record: nothing for the header line,
   * a line without ':' or an empty key or value; else the camel-cased key and
   * the parsed value.
   */
  function LineEntry(line: string): (r: Option<(string, Value)>)
  {
    if Contains(line, HeaderMarker) then None else KeyValue(line, IndexOfChar(line, ':'))
  }

  /** The key before and the value after the first ':' at sep, both trimmed and non-empty. */
  function KeyValue(line: string, sep: int): (r: Option<(string, Value)>)
    requires -1 <= sep < |line|
  {
    if sep == -1 then None
    else
      var key := Trim(line[..sep]);
      var value := Trim(line[sep + 1..]);
      if key == [] || value == [] then None
      else Some((CamelKey(key), ParseValue(value)))
  }

  /** dumpData.split('\n').filter(line => line.trim()) */
  function NonBlankLines(lines: seq<string>): (r: seq<string>)
    ensures |r| <= |lines|
    ensures forall k :: 0 <= k < |r| ==> !IsBlank(r[k])
    ensures forall x :: x in r <==> x in lines && !IsBlank(x)
  {
    if lines == [] then []
    else if IsBlank(lines[0]) then NonBlankLines(lines[1..])
    else [lines[0]] + NonBlankLines(lines[1..])
  }

  /** The filter keeps order: filtering a concatenation concatenates the filtered parts. */
  lemma {:induction false} NonBlankLinesAppend(a: seq<string>, b: seq<string>)
    ensures NonBlankLines(a + b) == NonBlankLines(a) + NonBlankLines(b)
  {
    if a != [] {
      var h := if IsBlank(a[0]) then [] else [a[0]];
      assert NonBlankLines(a[1..] + b) == NonBlankLines(a[1..]) + NonBlankLines(b) by {
        NonBlankLinesAppend(a[1..], b);
      }
      assert NonBlankLines(a + b) == h + NonBlankLines(a[1..] + b) by {
        assert (a + b)[0] == a[0] && (a + b)[1..] == a[1..] + b;
      }
      assert NonBlankLines(a) == h + NonBlankLines(a[1..]);
      assert h + (NonBlankLines(a[1..]) + NonBlankLines(b)) == (h + NonBlankLines(a[1..])) + NonBlankLines(b);
    } else {
      assert a + b == b;
    }
  }

  /** The filter keeps each non-blank line as often as it occurs and drops every blank one. */
  lemma {:induction false} NonBlankLinesCount(lines: seq<string>, x: string)
    ensures multiset(NonBlankLines(lines))[x] == if IsBlank(x) then 0 else multiset(lines)[x]
  {
    if lines != [] {
      var h := if IsBlank(lines[0]) then [] else [lines[0]];
      assert NonBlankLines(lines) == h + NonBlankLines(lines[1..]);
      assert multiset(lines) == multiset{lines[0]} + multiset(lines[1..]) by {
        assert lines == [lines[0]] + lines[1..];
      }
      assert multiset(NonBlankLines(lines[1..]))[x] == if IsBlank(x) then 0 else multiset(lines[1..])[x] by {
        NonBlankLinesCount(lines[1..], x);
      }
    }
  }

  /** result.raw after the forEach over the lines: a later line overwrites an earlier one with the same key. */
  function Raw(lines: seq<string>): (r: map<string, Value>)
  {
    if lines == [] then map[]
    else
      Record(Raw(lines[..|lines| - 1]), LineEntry(lines[|lines| - 1]))
  }

  /** result.raw[camelKey] = parseValue(value) for a line that has an entry. */
  function Record(raw: map<string, Value>, entry: Option<(string, Value)>): map<string, Value> {
    match entry
    case Some(e) => raw[e.0 := e.1]
    case None => raw
  }

  lemma RawStep(lines: seq<string>, i: nat)
    requires i < |lines|
    ensures Raw(lines[..i + 1]) == Record(Raw(lines[..i]), LineEntry(lines[i]))
  {
    assert lines[..i + 1][..i] == lines[..i];
  }

  /** The entries of the lines, one per line. */
  function Entries(lines: seq<string>): (r: seq<Option<(string, Value)>>)
    ensures |r| == |lines|
    ensures forall i :: 0 <= i < |lines| ==> r[i] == LineEntry(lines[i])
  {
    seq(|lines|, i requires 0 <= i < |lines| => LineEntry(lines[i]))
  }

  /** Recording entries one after another, as the forEach does. */
  function Records(entries: seq<Option<(string, Value)>>): map<string, Value> {
    if entries == [] then map[] else Record(Records(entries[..|entries| - 1]), entries[|entries| - 1])
  }

  lemma {:induction false} RawIsRecords(lines: seq<string>)
    ensures Raw(lines) == Records(Entries(lines))
  {
    if lines != [] {
      var n := |lines| - 1;
      var init := lines[..n];
      RawIsRecords(init);
      var es := Entries(lines);
      forall i | 0 <= i < n ensures es[i] == Entries(init)[i] {
        assert init[i] == lines[i];
      }
      assert es[..n] == Entries(init);
      assert Records(es) == Record(Records(Entries(init)), LineEntry(lines[n]));
    }
  }

  /** A key is recorded iff some entry supplies it, and holds the value of the last entry that does. */
  lemma {:induction false} RecordsMeaning(entries: seq<Option<(string, Value)>>, key: string)
    ensures key in Records(entries) <==> exists i :: 0 <= i < |entries| && entries[i].Some? && entries[i].value.0 == key
    ensures key in Records(entries) ==> exists i :: 0 <= i < |entries| && entries[i] == Some((key, Records(entries)[key]))
                                                   && forall j :: i < j < |entries| ==> entries[j].None? || entries[j].value.0 != key
  {
    if entries != [] {
      var init := entries[..|entries| - 1];
      RecordsMeaning(init, key);
      assert forall i :: 0 <= i < |init| ==> init[i] == entries[i];
    }
  }

  /** In the raw record, a key is present iff some line supplies it, and a later line overwrites an earlier one. */
  lemma RawMeaning(lines: seq<string>, key: string)
    ensures key in Raw(lines) <==> exists i :: 0 <= i < |lines| && Entries(lines)[i].Some? && Entries(lines)[i].value.0 == key
    ensures key in Raw(lines) ==> exists i :: 0 <= i < |lines| && Entries(lines)[i] == Some((key, Raw(lines)[key]))
                                             && forall j :: i < j < |lines| ==> Entries(lines)[j].None? || Entries(lines)[j].value.0 != key
  {
    RawIsRecords(lines);
    RecordsMeaning(Entries(lines), key);
  }

  // ---------------------------------------------------------------------
  // computed
  // ---------------------------------------------------------------------

  /** A raw field divided by a constant, or null when the field is falsy; the division itself is floating point and stays symbolic. */
  datatype Scaled = NullValue | Divided(numerator: Value, divisor: nat)

  datatype PowerSource = AC | USB | Wireless | Dock | BatteryPower

  datatype Computed = Computed(
    temperatureCelsius: Scaled,
    batteryPercentage: Value,
    isCharging: bool,
    voltageV: Scaled,
    powerSource: PowerSource)

  datatype BatteryInfo = BatteryInfo(raw: map<string, Value>, computed: Computed)

  /** result.raw[key], undefined when absent. */
  function Field(raw: map<string, Value>, key: string): Value {
    if key in raw then raw[key] else Undefined
  }

  function ScaledField(raw: map<string, Value>, key: string, divisor: nat): (r: Scaled)
    ensures r == NullValue <==> !Truthy(Field(raw, key))
  {
    if Truthy(Field(raw, key)) then Divided(Field(raw, key), divisor) else NullValue
  }

  /** The computed fields of a raw record. */
  function ComputedOf(raw: map<string, Value>): (r: Computed)
    ensures r.isCharging <==> (Truthy(Field(raw, "usbPowered")) || Truthy(Field(raw, "acPowered"))
                               || Truthy(Field(raw, "wirelessPowered")) || Truthy(Field(raw, "dockPowered")))
    ensures r.powerSource == BatteryPower <==> !r.isCharging
    ensures r.powerSource == AC <==> Truthy(Field(raw, "acPowered"))
    ensures r.powerSource == USB <==> !Truthy(Field(raw, "acPowered")) && Truthy(Field(raw, "usbPowered"))
    ensures r.powerSource == Wireless <==> !Truthy(Field(raw, "acPowered")) && !Truthy(Field(raw, "usbPowered"))
                                           && Truthy(Field(raw, "wirelessPowered"))
    ensures r.powerSource == Dock <==> !Truthy(Field(raw, "acPowered")) && !Truthy(Field(raw, "usbPowered"))
                                       && !Truthy(Field(raw, "wirelessPowered")) && Truthy(Field(raw, "dockPowered"))
    ensures Truthy(Field(raw, "level")) ==> r.batteryPercentage == Field(raw, "level")
    ensures !Truthy(Field(raw, "level")) ==> r.batteryPercentage == Num(0)
    ensures !Truthy(Field(raw, "temperature")) ==> r.temperatureCelsius == NullValue
    ensures Truthy(Field(raw, "temperature")) ==> r.temperatureCelsius == Divided(Field(raw, "temperature"), 10)
    ensures !Truthy(Field(raw, "voltage")) ==> r.voltageV == NullValue
    ensures Truthy(Field(raw, "voltage")) ==> r.voltageV == Divided(Field(raw, "voltage"), 1000)
  {
    var ac := Truthy(Field(raw, "acPowered"));
    var usb := Truthy(Field(raw, "usbPowered"));
    var wireless := Truthy(Field(raw, "wirelessPowered"));
    var dock := Truthy(Field(raw, "dockPowered"));
    Computed(
      ScaledField(raw, "temperature", 10),
      if Truthy(Field(raw, "level")) then Field(raw, "level") else Num(0),
      usb || ac || wireless || dock,
      ScaledField(raw, "voltage", 1000),
      if ac then AC else if usb then USB else if wireless then Wireless else if dock then Dock else BatteryPower)
  }

  /** The result of parseBatteryDump. */
  function BatteryInfoOf(dumpData: string): BatteryInfo {
    var raw := Raw(NonBlankLines(Split(dumpData, "\n")));
    BatteryInfo(raw, ComputedOf(raw))
  }

  /** parseBatteryDump: the forEach over the non-blank lines writing into result.raw, then the computed fields. */
  method ParseBatteryDump(dumpData: string) returns (result: BatteryInfo)
    ensures result == BatteryInfoOf(dumpData)
  {
    var lines := NonBlankLines(Split(dumpData, "\n"));
    var raw: map<string, Value> := map[];
    var i := 0;
    while i < |lines|
      invariant 0 <= i <= |lines|
      invariant raw == Raw(lines[..i])
    {
      RawStep(lines, i);
      var line := lines[i];
      var entry := LineEntry(line);
      if entry.Some? {
        raw := raw[entry.value.0 := entry.value.1];
      }
      i := i + 1;
    }
    assert lines[..|lines|] == lines;
    result := BatteryInfo(raw, ComputedOf(raw));
  }

  /** The percentage is the value of the last entry recording a truthy level; Raw(lines) is Records(Entries(lines)) by RawIsRecords. */
  lemma PercentageOfLastLevel(entries: seq<Option<(string, Value)>>, i: nat, v: Value)
    requires i < |entries| && entries[i] == Some(("level", v)) && Truthy(v)
    requires forall j :: i < j < |entries| ==> entries[j].None? || entries[j].value.0 != "level"
    ensures ComputedOf(Records(entries)).batteryPercentage == v
  {
    var raw := Records(entries);
    RecordsMeaning(entries, "level");
    assert "level" in raw by {
      assert entries[i].Some? && entries[i].value.0 == "level";
    }
    var k :| 0 <= k < |entries| && entries[k] == Some(("level", raw["level"]))
             && forall j :: k < j < |entries| ==> entries[j].None? || entries[j].value.0 != "level";
    assert k == i;
    assert Field(raw, "level") == v;
  }

  /** A "key: value" line with a non-empty key free of ':' and a non-empty value records the parsed value under the camel-cased key. */
  lemma LineEntryOfPair(key: string, value: string)
    requires key != [] && ':' !in key && !IsWhitespace(key[0]) && !IsWhitespace(key[|key| - 1])
    requires value != [] && !IsWhitespace(value[0]) && !IsWhitespace(value[|value| - 1])
    requires !Contains(key + ": " + value, HeaderMarker)
    ensures LineEntry(key + ": " + value) == Some((CamelKey(key), ParseValue(value)))
  {
    var line := key + ": " + value;
    ColonLineParts(key, ": ", value);
    TrimUnchanged(key);
    TrimLeadingSpace(value);
    assert KeyValue(line, |key|) == Some((CamelKey(key), ParseValue(value)));
  }

  /** Where the key, the first ':' and the rest sit in key + sep + value, for a separator ':' followed by one more character. */
  lemma ColonLineParts(key: string, sep: string, value: string)
    requires ':' !in key && |sep| == 2 && sep[0] == ':'
    ensures IndexOfChar(key + sep + value, ':') == |key|
    ensures (key + sep + value)[..|key|] == key
    ensures (key + sep + value)[|key| + 1..] == sep[1..] + value
  {
    var line := key + sep + value;
    forall j | 0 <= j < |key| ensures line[j] != ':' {
      assert line[j] == key[j];
    }
    IndexOfCharAt(line, ':', |key|);
    assert line[..|key|] == key;
    assert line[|key| + 1..] == sep[1..] + value;
  }
}