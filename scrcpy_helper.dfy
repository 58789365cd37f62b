/**
 * Parsers for the text scrcpy prints: the application list of --list-apps,
 * the encoder list of --list-encoders, and the display ids of
 * --list-displays.
 * Source: desktop/electron/exposes/scrcpy/helper.js
 */
module ScrcpyHelper {
  import opened Wrappers
  import opened Strings
  import opened JsValues

  // ---------------------------------------------------------------------
  // parseScrcpyAppList
  // ---------------------------------------------------------------------

  datatype App = App(name: string, packageName: string, isSystemApp: bool)

  const AppListTypeError := "scrcpy content must be a string"

  /** line.startsWith(' ' + mark + ' ') */
  predicate HasMarker(line: string, mark: char) {
    |line| >= 3 && line[0] == ' ' && line[1] == mark && line[2] == ' '
  }

  lemma HasMarkerStartsWith(line: string, mark: char)
    ensures HasMarker(line, mark) <==> StartsWith(line, [' ', mark, ' '])
  {
    if |line| >= 3 {
      assert line[..3] == [line[0], line[1], line[2]];
    }
  }

  /** The lines the list keeps: " * " marks a system app, " - " any other app. */
  predicate IsAppLine(line: string) {
    HasMarker(line, '*') || HasMarker(line, '-')
  }

  /** The entry of the text after the marker, trimmed: split at its last space. */
  function AppOf(content: string, isSystemApp: bool): (r: App)
    ensures ' ' !in r.packageName
  {
    var i := LastIndexOfChar(content, ' ');
    var pkg := Trim(content[i + 1..]);
    forall c | c in pkg ensures c != ' ' {
      TrimIn(content[i + 1..], c);
    }
    App(if i < 0 then "" else Trim(content[..i]), pkg, isSystemApp)
  }

  /** One kept line; " * " marks a system app. */
  function ParseAppLine(line: string): (r: App)
    requires IsAppLine(line)
    ensures r.isSystemApp <==> HasMarker(line, '*')
  {
    AppOf(Trim(line[3..]), HasMarker(line, '*'))
  }

  /** filter(...).map(...) over the lines. */
  function AppsOf(lines: seq<string>): (r: seq<App>)
    ensures |r| <= |lines|
  {
    if lines == [] then []
    else if IsAppLine(lines[0]) then [ParseAppLine(lines[0])] + AppsOf(lines[1..])
    else AppsOf(lines[1..])
  }

  /** parseScrcpyAppList: a TypeError for anything but a string. */
  function ParseScrcpyAppList(rawText: Value): (r: Result<seq<App>, string>)
    ensures r.Err? <==> !rawText.Str?
    ensures r.Err? ==> r.error == AppListTypeError
    ensures r.Ok? ==> |r.value| <= |Split(rawText.s, "\n")|
  {
    if !rawText.Str? then Err(AppListTypeError) else Ok(AppsOf(Split(rawText.s, "\n")))
  }

  /** An application entry as scrcpy lists it, with the fields the parser can give back. */
  predicate WellFormedApp(app: App) {
    app.packageName != []
    && (forall i :: 0 <= i < |app.packageName| ==> !IsWhitespace(app.packageName[i]))
    && '\n' !in app.name
    && (app.name != [] ==> !IsWhitespace(app.name[0]) && !IsWhitespace(app.name[|app.name| - 1]))
  }

  /** The line scrcpy prints for an application. */
  function FormatAppLine(app: App): string {
    [' ', if app.isSystemApp then '*' else '-', ' '] + AppText(app)
  }

  /** The text after the marker of a printed entry. */
  function AppText(app: App): string {
    if app.name == [] then app.packageName else app.name + " " + app.packageName
  }

  lemma NoSpaceIn(pkg: string)
    requires forall i :: 0 <= i < |pkg| ==> !IsWhitespace(pkg[i])
    ensures ' ' !in pkg
  {
    forall k | 0 <= k < |pkg| ensures pkg[k] != ' ' {
      assert !IsWhitespace(pkg[k]);
    }
  }

  lemma AppOfText(app: App)
    requires WellFormedApp(app)
    ensures Trim(AppText(app)) == AppText(app)
    ensures AppOf(AppText(app), app.isSystemApp) == app
  {
    var body := AppText(app);
    var pkg := app.packageName;
    assert body[|body| - 1] == pkg[|pkg| - 1];
    assert !IsWhitespace(body[0]) by {
      if app.name == [] { assert body[0] == pkg[0]; } else { assert body[0] == app.name[0]; }
    }
    TrimUnchanged(body);
    if app.name == [] {
      AppOfPackageOnly(app);
    } else {
      AppOfNamed(app);
    }
  }

  lemma AppOfPackageOnly(app: App)
    requires WellFormedApp(app) && app.name == []
    ensures AppOf(app.packageName, app.isSystemApp) == app
  {
    var pkg := app.packageName;
    TrimUnchanged(pkg);
    NoSpaceIn(pkg);
    assert LastIndexOfChar(pkg, ' ') == -1;
    assert pkg[0..] == pkg;
  }

  lemma AppOfNamed(app: App)
    requires WellFormedApp(app) && app.name != []
    ensures AppOf(app.name + " " + app.packageName, app.isSystemApp) == app
  {
    var pkg := app.packageName;
    var body := app.name + " " + pkg;
    var n := |app.name|;
    assert LastIndexOfChar(body, ' ') == n by {
      NoSpaceIn(pkg);
      assert body[n] == ' ';
      forall j | n < j < |body| ensures body[j] != ' ' {
        assert body[j] == pkg[j - n - 1];
      }
    }
    assert body[..n] == app.name && body[n + 1..] == pkg;
    assert Trim(pkg) == pkg by {
      TrimUnchanged(pkg);
    }
    assert Trim(app.name) == app.name by {
      TrimUnchanged(app.name);
    }
  }

  lemma FormatAppLineParts(app: App)
    ensures IsAppLine(FormatAppLine(app))
    ensures FormatAppLine(app)[3..] == AppText(app)
    ensures HasMarker(FormatAppLine(app), '*') == app.isSystemApp
  {
    var line := FormatAppLine(app);
    assert line[3..] == AppText(app);
  }

  /** Parsing the printed line gives back the application. */
  lemma ParseFormatAppLine(app: App)
    requires WellFormedApp(app)
    ensures IsAppLine(FormatAppLine(app))
    ensures ParseAppLine(FormatAppLine(app)) == app
  {
    var line := FormatAppLine(app);
    assert IsAppLine(line) && line[3..] == AppText(app) && HasMarker(line, '*') == app.isSystemApp by {
      FormatAppLineParts(app);
    }
    assert Trim(AppText(app)) == AppText(app) && AppOf(AppText(app), app.isSystemApp) == app by {
      AppOfText(app);
    }
  }

  function FormatAppLines(apps: seq<App>): (r: seq<string>)
    ensures |r| == |apps|
  {
    if apps == [] then [] else [FormatAppLine(apps[0])] + FormatAppLines(apps[1..])
  }

  /** Every application of the list is well formed, stated head first. */
  predicate AllWellFormed(apps: seq<App>) {
    apps == [] || (WellFormedApp(apps[0]) && AllWellFormed(apps[1..]))
  }

  lemma {:induction false} AllWellFormedOf(apps: seq<App>)
    requires forall k :: 0 <= k < |apps| ==> WellFormedApp(apps[k])
    ensures AllWellFormed(apps)
  {
    if apps != [] {
      var tail := apps[1..];
      forall k | 0 <= k < |tail| ensures WellFormedApp(tail[k]) {
        assert tail[k] == apps[k + 1];
      }
      AllWellFormedOf(tail);
    }
  }

  lemma {:induction false} AppsOfFormatted(apps: seq<App>)
    requires AllWellFormed(apps)
    ensures AppsOf(FormatAppLines(apps)) == apps
  {
    if apps != [] {
      var tail := apps[1..];
      assert WellFormedApp(apps[0]) && AllWellFormed(tail);
      AppsOfFormatted(tail);
      AppsOfFormattedCons(apps);
      assert AppsOf(FormatAppLines(apps)) == [apps[0]] + tail;
    }
  }

  lemma AppsOfFormattedCons(apps: seq<App>)
    requires apps != [] && WellFormedApp(apps[0])
    ensures AppsOf(FormatAppLines(apps)) == [apps[0]] + AppsOf(FormatAppLines(apps[1..]))
  {
    var lines := FormatAppLines(apps);
    assert lines[0] == FormatAppLine(apps[0]);
    assert lines[1..] == FormatAppLines(apps[1..]);
    ParseFormatAppLine(apps[0]);
  }

  lemma FormatAppLineNoNewline(app: App)
    requires WellFormedApp(app)
    ensures '\n' !in FormatAppLine(app)
  {
    var marker := [' ', if app.isSystemApp then '*' else '-', ' '];
    assert FormatAppLine(app) == marker + AppText(app);
  }

  lemma {:induction false} FormatAppLinesNoNewline(apps: seq<App>)
    requires forall k :: 0 <= k < |apps| ==> WellFormedApp(apps[k])
    ensures forall k :: 0 <= k < |apps| ==> '\n' !in FormatAppLines(apps)[k]
  {
    if apps != [] {
      var lines := FormatAppLines(apps);
      var rest := FormatAppLines(apps[1..]);
      assert lines == [FormatAppLine(apps[0])] + rest;
      assert '\n' !in lines[0] by {
        FormatAppLineNoNewline(apps[0]);
      }
      assert forall k :: 0 <= k < |rest| ==> '\n' !in rest[k] by {
        FormatAppLinesNoNewline(apps[1..]);
      }
      forall k | 1 <= k < |apps| ensures '\n' !in lines[k] {
        assert lines[k] == rest[k - 1];
      }
    }
  }

  /** Parsing the printed list, one application per line, gives back the applications. */
  lemma ParseScrcpyAppListRoundTrip(apps: seq<App>)
    requires forall k :: 0 <= k < |apps| ==> WellFormedApp(apps[k])
    ensures ParseScrcpyAppList(Str(Join(FormatAppLines(apps), "\n"))) == Ok(apps)
  {
    var lines := FormatAppLines(apps);
    if apps == [] {
      assert Split("", "\n") == [""];
    } else {
      FormatAppLinesNoNewline(apps);
      SplitJoin(lines, '\n');
      AllWellFormedOf(apps);
      AppsOfFormatted(apps);
    }
  }

  // ---------------------------------------------------------------------
  // parseScrcpyCodecList
  // ---------------------------------------------------------------------

  /** The class \w of a regular expression. */
  predicate IsWordChar(c: char) {
    'A' <= c <= 'Z' || 'a' <= c <= 'z' || '0' <= c <= '9' || c == '_'
  }

  /** [\w-] */
  predicate IsKeyChar(c: char) {
    IsWordChar(c) || c == '-'
  }

  /** [\w.-] */
  predicate IsValueChar(c: char) {
    IsWordChar(c) || c == '.' || c == '-'
  }

  /** The length of the longest prefix of key characters. */
  function KeyRun(s: string): (n: nat)
    ensures n <= |s|
    ensures forall i :: 0 <= i < n ==> IsKeyChar(s[i])
    ensures n < |s| ==> !IsKeyChar(s[n])
  {
    if s == [] || !IsKeyChar(s[0]) then 0 else 1 + KeyRun(s[1..])
  }

  /** The length of the longest prefix of value characters. */
  function ValueRun(s: string): (n: nat)
    ensures n <= |s|
    ensures forall i :: 0 <= i < n ==> IsValueChar(s[i])
    ensures n < |s| ==> !IsValueChar(s[n])
  {
    if s == [] || !IsValueChar(s[0]) then 0 else 1 + ValueRun(s[1..])
  }

  /**
   * A match of /--[\w-]+=[\w.-]+/ at the start of s: the key, the value and
   * the length of the match. Neither run can contain '=', so the greedy runs
   * are the only candidates and split('=') recovers exactly key and value.
   */
  function PairAt(s: string): (r: Option<(string, string, nat)>)
    ensures r.Some? ==> 4 <= r.value.2 <= |s| && r.value.0 != [] && r.value.1 != []
    ensures r.Some? ==> s[..r.value.2] == "--" + r.value.0 + "=" + r.value.1
  {
    if |s| >= 2 && s[0] == '-' && s[1] == '-' then
      var k := KeyRun(s[2..]);
      if k >= 1 && 2 + k < |s| && s[2 + k] == '=' then
        var v := ValueRun(s[3 + k..]);
        if v >= 1 then
          assert s[..3 + k + v] == "--" + s[2..2 + k] + "=" + s[3 + k..3 + k + v];
          Some((s[2..2 + k], s[3 + k..3 + k + v], 3 + k + v))
        else None
      else None
    else None
  }

  /** line.match(/--[\w-]+=[\w.-]+/g): the matches from left to right, as key/value pairs. */
  function Pairs(s: string): (r: seq<(string, string)>)
    ensures forall i :: 0 <= i < |r| ==> r[i].1 != []
    decreases |s|
  {
    if s == [] then []
    else match PairAt(s)
      case Some(p) => [(p.0, p.1)] + Pairs(s[p.2..])
      case None => Pairs(s[1..])
  }

  /** pairs.reduce(...) into an object: a later pair overwrites an earlier one with the same key. */
  function Info(pairs: seq<(string, string)>): (r: map<string, string>)
  {
    if pairs == [] then map[]
    else
      var last := pairs[|pairs| - 1];
      Info(pairs[..|pairs| - 1])[last.0 := last.1]
  }

  /** info[key] on the object the reduce builds: the value of the last pair with that key, read from the end. */
  function Lookup(pairs: seq<(string, string)>, key: string): (r: Option<string>)
  {
    if pairs == [] then None
    else if pairs[|pairs| - 1].0 == key then Some(pairs[|pairs| - 1].1)
    else Lookup(pairs[..|pairs| - 1], key)
  }

  /** Reading a key of the built object agrees with Lookup. */
  lemma {:induction false} InfoLookup(pairs: seq<(string, string)>, key: string)
    ensures key in Info(pairs) <==> Lookup(pairs, key).Some?
    ensures key in Info(pairs) ==> Info(pairs)[key] == Lookup(pairs, key).value
  {
    if pairs != [] {
      InfoLookup(pairs[..|pairs| - 1], key);
    }
  }

  /** A key is present for exactly the keys of the pairs, with the value of the last pair holding that key. */
  lemma {:induction false} LookupMeaning(pairs: seq<(string, string)>, key: string)
    ensures Lookup(pairs, key).Some? <==> exists i :: 0 <= i < |pairs| && pairs[i].0 == key
    ensures Lookup(pairs, key).Some? ==>
      exists i :: 0 <= i < |pairs| && pairs[i] == (key, Lookup(pairs, key).value)
                  && forall j :: i < j < |pairs| ==> pairs[j].0 != key
  {
    if pairs != [] {
      var init := pairs[..|pairs| - 1];
      LookupMeaning(init, key);
      if pairs[|pairs| - 1].0 == key {
        assert pairs[|pairs| - 1] == (key, Lookup(pairs, key).value);
      } else {
        if Lookup(init, key).Some? {
          var i :| 0 <= i < |init| && init[i] == (key, Lookup(init, key).value)
                   && forall j :: i < j < |init| ==> init[j].0 != key;
          assert pairs[i] == init[i];
          forall j | i < j < |pairs|
            ensures pairs[j].0 != key
          {
            if j < |init| {
              assert pairs[j] == init[j];
            }
          }
        }
        if exists i :: 0 <= i < |pairs| && pairs[i].0 == key {
          var i :| 0 <= i < |pairs| && pairs[i].0 == key;
          assert init[i] == pairs[i];
        }
      }
    }
  }

  datatype Codec = Codec(codec: string, encoder: string)

  datatype LineVerdict = VideoLine(video: Codec) | AudioLine(audio: Codec) | Ignored

  /** info[key] is truthy: present and not the empty string. */
  predicate Present(v: Option<string>) {
    v.Some? && v.value != []
  }

  /** What the pairs of a line contribute: video when both video keys hold a value, else audio when both audio keys do. */
  function PairsVerdict(pairs: seq<(string, string)>): (r: LineVerdict)
    ensures r != Ignored ==> |pairs| >= 2
  {
    if |pairs| < 2 then Ignored
    else
      var vc, ve := Lookup(pairs, "video-codec"), Lookup(pairs, "video-encoder");
      var ac, ae := Lookup(pairs, "audio-codec"), Lookup(pairs, "audio-encoder");
      if Present(vc) && Present(ve) then VideoLine(Codec(vc.value, ve.value))
      else if Present(ac) && Present(ae) then AudioLine(Codec(ac.value, ae.value))
      else Ignored
  }

  /** What one line of the log contributes: only trimmed lines starting with "--" are read. */
  function CodecLine(line: string): (r: LineVerdict)
  {
    var t := Trim(line);
    if t == [] || !StartsWith(t, "--") then Ignored else PairsVerdict(Pairs(t))
  }

  /** The video and audio entries of the first n lines, in line order. */
  function Collect(lines: seq<string>, n: nat): (r: (seq<Codec>, seq<Codec>))
    requires n <= |lines|
    ensures |r.0| + |r.1| <= n
  {
    if n == 0 then ([], [])
    else Step(Collect(lines, n - 1), CodecLine(lines[n - 1]))
  }

  /** The push a line's verdict makes onto the video or the audio list. */
  function Step(acc: (seq<Codec>, seq<Codec>), verdict: LineVerdict): (r: (seq<Codec>, seq<Codec>))
    ensures |r.0| + |r.1| <= |acc.0| + |acc.1| + 1
  {
    match verdict
    case VideoLine(c) => (acc.0 + [c], acc.1)
    case AudioLine(c) => (acc.0, acc.1 + [c])
    case Ignored => acc
  }

  /** The two errors the catch block turns into an `error` message. */
  datatype CodecError =
    | NoCodecInformation   // 'No valid codec information found in the log content'
    | NotSplittable        // the TypeError of calling split on a value that is not a string

  datatype CodecList = CodecList(video: seq<Codec>, audio: seq<Codec>, error: Option<CodecError>)

  /** The result parseScrcpyCodecList returns for a log. */
  function CodecListOf(rawText: Value): (r: CodecList)
    ensures r.error.Some? ==> r.video == [] && r.audio == []
    ensures r.error.None? ==> |r.video| + |r.audio| > 0
    ensures !rawText.Str? ==> r.error == Some(NotSplittable)
  {
    if !rawText.Str? then CodecList([], [], Some(NotSplittable))
    else
      var lines := Split(rawText.s, "\n");
      var c := Collect(lines, |lines|);
      if c.0 == [] && c.1 == [] then CodecList([], [], Some(NoCodecInformation))
      else CodecList(c.0, c.1, None)
  }

  /** One pass of the loop body: the line's entry pushed onto the video or the audio list. */
  method PushLine(line: string, video: seq<Codec>, audio: seq<Codec>) returns (video': seq<Codec>, audio': seq<Codec>)
    ensures (video', audio') == Step((video, audio), CodecLine(line))
  {
    video', audio' := video, audio;
    match CodecLine(line) {
      case VideoLine(c) => video' := video + [c];
      case AudioLine(c) => audio' := audio + [c];
      case Ignored =>
    }
  }

  /** parseScrcpyCodecList: the loop over the lines, pushing into the two result arrays. */
  method ParseScrcpyCodecList(rawText: Value) returns (r: CodecList)
    ensures r == CodecListOf(rawText)
  {
    if !rawText.Str? {
      return CodecList([], [], Some(NotSplittable));
    }
    var lines := Split(rawText.s, "\n");
    var video: seq<Codec> := [];
    var audio: seq<Codec> := [];
    var i := 0;
    while i < |lines|
      invariant 0 <= i <= |lines|
      invariant (video, audio) == Collect(lines, i)
    {
      video, audio := PushLine(lines[i], video, audio);
      i := i + 1;
    }
    if video == [] && audio == [] {
      return CodecList([], [], Some(NoCodecInformation));
    }
    return CodecList(video, audio, None);
  }

  predicate KeyToken(k: string) {
    k != [] && forall i :: 0 <= i < |k| ==> IsKeyChar(k[i])
  }

  predicate ValueToken(v: string) {
    v != [] && forall i :: 0 <= i < |v| ==> IsValueChar(v[i])
  }

  /** A "--key=value" token followed by a character outside the value class is one match. */
  lemma PairsCons(k: string, v: string, rest: string)
    requires KeyToken(k) && ValueToken(v)
    requires rest == [] || !IsValueChar(rest[0])
    ensures Pairs("--" + k + "=" + v + rest) == [(k, v)] + Pairs(rest)
  {
    TokenAt(k, v, rest);
    PairsOfMatch("--" + k + "=" + v + rest, (k, v, 3 + |k| + |v|));
  }

  /** The match at the start of a "--key=value" token is that key and value. */
  lemma TokenAt(k: string, v: string, rest: string)
    requires KeyToken(k) && ValueToken(v)
    requires rest == [] || !IsValueChar(rest[0])
    ensures PairAt("--" + k + "=" + v + rest) == Some((k, v, 3 + |k| + |v|))
    ensures ("--" + k + "=" + v + rest)[3 + |k| + |v|..] == rest
  {
    var s := "--" + k + "=" + v + rest;
    TokenSlices(k, v, rest);
    KeyRunOf(k, "=" + (v + rest));
    ValueRunOf(v, rest);
    PairAtOf(s, k, v);
  }

  /** Where the parts of a "--key=value" token sit in it. */
  lemma TokenSlices(k: string, v: string, rest: string)
    ensures var s := "--" + k + "=" + v + rest;
      && |s| == 3 + |k| + |v| + |rest|
      && s[0] == '-' && s[1] == '-' && s[2 + |k|] == '='
      && s[2..] == k + ("=" + (v + rest))
      && s[3 + |k|..] == v + rest
      && s[2..2 + |k|] == k && s[3 + |k|..3 + |k| + |v|] == v && s[3 + |k| + |v|..] == rest
  {
    var s := "--" + k + "=" + v + rest;
    assert s == "--" + (k + ("=" + (v + rest)));
    assert s[2..] == k + ("=" + (v + rest));
    assert s[3 + |k|..] == (k + ("=" + (v + rest)))[|k| + 1..];
  }

  /** Pairs takes the match at the start and goes on after it. */
  lemma PairsOfMatch(s: string, p: (string, string, nat))
    requires PairAt(s) == Some(p)
    ensures Pairs(s) == [(p.0, p.1)] + Pairs(s[p.2..])
  {
  }

  /** The match PairAt finds once its key and value runs are known. */
  lemma PairAtOf(s: string, k: string, v: string)
    requires |s| >= 3 + |k| + |v| && |k| >= 1 && |v| >= 1
    requires s[0] == '-' && s[1] == '-' && s[2 + |k|] == '='
    requires KeyRun(s[2..]) == |k| && ValueRun(s[3 + |k|..]) == |v|
    requires s[2..2 + |k|] == k && s[3 + |k|..3 + |k| + |v|] == v
    ensures PairAt(s) == Some((k, v, 3 + |k| + |v|))
  {
  }

  lemma {:induction false} KeyRunOf(k: string, rest: string)
    requires forall i :: 0 <= i < |k| ==> IsKeyChar(k[i])
    requires rest == [] || !IsKeyChar(rest[0])
    ensures KeyRun(k + rest) == |k|
  {
    if k != [] {
      assert (k + rest)[1..] == k[1..] + rest;
      KeyRunOf(k[1..], rest);
    } else {
      assert k + rest == rest;
    }
  }

  lemma {:induction false} ValueRunOf(v: string, rest: string)
    requires forall i :: 0 <= i < |v| ==> IsValueChar(v[i])
    requires rest == [] || !IsValueChar(rest[0])
    ensures ValueRun(v + rest) == |v|
  {
    if v != [] {
      assert (v + rest)[1..] == v[1..] + rest;
      ValueRunOf(v[1..], rest);
    } else {
      assert v + rest == rest;
    }
  }

  /** The encoder line scrcpy prints for one codec: "--<codecKey>=<codec> --<encoderKey>=<encoder>". */
  function FormatCodecLine(codecKey: string, encoderKey: string, c: Codec): string {
    "--" + codecKey + "=" + c.codec + " --" + encoderKey + "=" + c.encoder
  }

  lemma PairsOfCodecLine(kc: string, ke: string, c: Codec)
    requires KeyToken(kc) && KeyToken(ke) && ValueToken(c.codec) && ValueToken(c.encoder)
    ensures Pairs(FormatCodecLine(kc, ke, c)) == [(kc, c.codec), (ke, c.encoder)]
  {
    var tail := "--" + ke + "=" + c.encoder;
    var head := "--" + kc + "=" + c.codec;
    assert FormatCodecLine(kc, ke, c) == head + (" " + tail) by {
      CodecLineHalves(kc, ke, c);
    }
    assert Pairs(head + (" " + tail)) == [(kc, c.codec)] + Pairs(" " + tail) by {
      PairsCons(kc, c.codec, " " + tail);
    }
    assert Pairs(" " + tail) == Pairs(tail) by {
      PairsSkipSpace(tail);
    }
    assert Pairs(tail) == [(ke, c.encoder)] by {
      PairsCons(ke, c.encoder, []);
      assert tail + [] == tail;
    }
  }

  /** An encoder line is its codec token, a space and its encoder token. */
  lemma CodecLineHalves(kc: string, ke: string, c: Codec)
    ensures FormatCodecLine(kc, ke, c) == "--" + kc + "=" + c.codec + (" " + ("--" + ke + "=" + c.encoder))
  {
  }

  /** A leading space starts no match. */
  lemma PairsSkipSpace(t: string)
    ensures Pairs(" " + t) == Pairs(t)
  {
    assert (" " + t)[1..] == t;
  }

  lemma CodecLineTrimmed(kc: string, ke: string, c: Codec)
    requires ValueToken(c.encoder)
    ensures Trim(FormatCodecLine(kc, ke, c)) == FormatCodecLine(kc, ke, c)
    ensures StartsWith(FormatCodecLine(kc, ke, c), "--")
  {
    var s := FormatCodecLine(kc, ke, c);
    assert s[0] == '-' && s[1] == '-';
    assert s[|s| - 1] == c.encoder[|c.encoder| - 1];
    assert IsValueChar(s[|s| - 1]);
    TrimUnchanged(s);
  }

  /** A printed encoder line is read through the two pairs it prints. */
  lemma CodecLineOfFormat(kc: string, ke: string, c: Codec)
    requires KeyToken(kc) && KeyToken(ke) && ValueToken(c.codec) && ValueToken(c.encoder)
    ensures CodecLine(FormatCodecLine(kc, ke, c)) == PairsVerdict([(kc, c.codec), (ke, c.encoder)])
  {
    CodecLineTrimmed(kc, ke, c);
    PairsOfCodecLine(kc, ke, c);
  }

  lemma LookupOfTwo(k1: string, v1: string, k2: string, v2: string, key: string)
    ensures Lookup([(k1, v1), (k2, v2)], key) == if key == k2 then Some(v2) else if key == k1 then Some(v1) else None
  {
    var pairs := [(k1, v1), (k2, v2)];
    assert pairs[..1] == [(k1, v1)];
    assert pairs[..1][..0] == [];
    assert Lookup(pairs[..1], key) == if key == k1 then Some(v1) else None;
    assert Lookup(pairs, key) == if key == k2 then Some(v2) else Lookup(pairs[..1], key);
  }

  lemma VideoKeys()
    ensures KeyToken("video-codec") && KeyToken("video-encoder")
  {
  }

  lemma AudioKeys()
    ensures KeyToken("audio-codec") && KeyToken("audio-encoder")
  {
  }

  lemma PairsVerdictVideo(c: Codec)
    requires c.codec != [] && c.encoder != []
    ensures PairsVerdict([("video-codec", c.codec), ("video-encoder", c.encoder)]) == VideoLine(c)
  {
    assert "video-codec"[6] != "video-encoder"[6];
    LookupOfTwo("video-codec", c.codec, "video-encoder", c.encoder, "video-codec");
    LookupOfTwo("video-codec", c.codec, "video-encoder", c.encoder, "video-encoder");
  }

  lemma PairsVerdictAudio(c: Codec)
    requires c.codec != [] && c.encoder != []
    ensures PairsVerdict([("audio-codec", c.codec), ("audio-encoder", c.encoder)]) == AudioLine(c)
  {
    assert "audio-codec"[6] != "audio-encoder"[6];
    assert "audio-codec"[0] != "video-codec"[0] && "audio-encoder"[0] != "video-codec"[0];
    assert "audio-codec"[0] != "video-encoder"[0] && "audio-encoder"[0] != "video-encoder"[0];
    LookupOfTwo("audio-codec", c.codec, "audio-encoder", c.encoder, "video-codec");
    LookupOfTwo("audio-codec", c.codec, "audio-encoder", c.encoder, "video-encoder");
    LookupOfTwo("audio-codec", c.codec, "audio-encoder", c.encoder, "audio-codec");
    LookupOfTwo("audio-codec", c.codec, "audio-encoder", c.encoder, "audio-encoder");
  }

  /** A printed video encoder line parses back to its codec and encoder. */
  lemma VideoLineRoundTrip(c: Codec)
    requires ValueToken(c.codec) && ValueToken(c.encoder)
    ensures CodecLine(FormatCodecLine("video-codec", "video-encoder", c)) == VideoLine(c)
  {
    VideoKeys();
    CodecLineOfFormat("video-codec", "video-encoder", c);
    PairsVerdictVideo(c);
  }

  /** A printed audio encoder line parses back to its codec and encoder. */
  lemma AudioLineRoundTrip(c: Codec)
    requires ValueToken(c.codec) && ValueToken(c.encoder)
    ensures CodecLine(FormatCodecLine("audio-codec", "audio-encoder", c)) == AudioLine(c)
  {
    AudioKeys();
    CodecLineOfFormat("audio-codec", "audio-encoder", c);
    PairsVerdictAudio(c);
  }

  // ---------------------------------------------------------------------
  // parseDisplayIds
  // ---------------------------------------------------------------------

  const DisplayIdFlag := "--display-id="

  /** The length of the longest prefix of decimal digits. */
  function DigitRun(s: string): (n: nat)
    ensures n <= |s| && AllDigits(s[..n])
    ensures n < |s| ==> !IsDigit(s[n])
  {
    if s == [] || !IsDigit(s[0]) then 0
    else
      var n := 1 + DigitRun(s[1..]);
      assert s[..n] == [s[0]] + s[1..][..n - 1];
      n
  }

  /** A match of /--display-id=(\d+)/ at the start of s: the id and the match length. */
  function DisplayIdAt(s: string): (r: Option<(nat, nat)>)
    ensures r.Some? ==> |DisplayIdFlag| < r.value.1 <= |s|
  {
    if StartsWith(s, DisplayIdFlag) then
      var n := DigitRun(s[|DisplayIdFlag|..]);
      if n >= 1 then
        Some((DigitsValue(s[|DisplayIdFlag|..][..n]), |DisplayIdFlag| + n))
      else None
    else None
  }

  /** text.matchAll(/--display-id=(\d+)/g) mapped through parseInt. */
  function DisplayIdMatches(s: string): seq<nat>
    decreases |s|
  {
    if s == [] then []
    else match DisplayIdAt(s)
      case Some(m) => [m.0] + DisplayIdMatches(s[m.1..])
      case None => DisplayIdMatches(s[1..])
  }

  predicate StrictlyIncreasing(xs: seq<nat>) {
    forall i, j :: 0 <= i < j < |xs| ==> xs[i] < xs[j]
  }

  /** Inserts x into a strictly increasing sequence, unless it is already there. */
  function Insert(xs: seq<nat>, x: nat): (r: seq<nat>)
    requires StrictlyIncreasing(xs)
    ensures StrictlyIncreasing(r)
    ensures forall y :: y in r <==> y in xs || y == x
  {
    if xs == [] then [x]
    else if x < xs[0] then [x] + xs
    else if x == xs[0] then xs
    else
      var rest := Insert(xs[1..], x);
      HeadBelowTail(xs);
      ConsIncreasing(xs[0], rest);
      assert xs == [xs[0]] + xs[1..];
      [xs[0]] + rest
  }

  lemma HeadBelowTail(xs: seq<nat>)
    requires xs != [] && StrictlyIncreasing(xs)
    ensures forall y :: y in xs[1..] ==> xs[0] < y
  {
    forall y | y in xs[1..] ensures xs[0] < y {
      var k :| 0 <= k < |xs[1..]| && xs[1..][k] == y;
      assert xs[k + 1] == y;
    }
  }

  lemma ConsIncreasing(h: nat, t: seq<nat>)
    requires StrictlyIncreasing(t) && forall y :: y in t ==> h < y
    ensures StrictlyIncreasing([h] + t)
  {
    var r := [h] + t;
    forall i, j | 0 <= i < j < |r| ensures r[i] < r[j] {
      assert r[j] == t[j - 1];
      if i == 0 {
        assert r[j] in t;
      } else {
        assert r[i] == t[i - 1];
      }
    }
  }

  /** [...new Set(ids)].sort((a, b) => a - b) */
  function SortedUnique(ids: seq<nat>): (r: seq<nat>)
    ensures StrictlyIncreasing(r)
    ensures forall y :: y in r <==> y in ids
  {
    if ids == [] then []
    else
      var prev := SortedUnique(ids[..|ids| - 1]);
      assert ids == ids[..|ids| - 1] + [ids[|ids| - 1]];
      Insert(prev, ids[|ids| - 1])
  }

  /** parseDisplayIds: [] for a falsy or non-string argument, else the distinct ids in ascending order. */
  function ParseDisplayIds(text: Value): (r: seq<nat>)
    ensures !Truthy(text) || !text.Str? ==> r == []
    ensures StrictlyIncreasing(r)
    ensures text.Str? ==> forall y :: y in r <==> y in DisplayIdMatches(text.s)
  {
    if !Truthy(text) || !text.Str? then [] else SortedUnique(DisplayIdMatches(text.s))
  }

  /** A flag with the decimal text of n, followed by a non-digit, is read as the id n. */
  lemma DisplayIdMatchesCons(n: nat, rest: string)
    requires rest == [] || !IsDigit(rest[0])
    ensures DisplayIdMatches(DisplayIdFlag + NatToString(n) + rest) == [n] + DisplayIdMatches(rest)
  {
    var d := NatToString(n);
    var s := DisplayIdFlag + d + rest;
    ThreeParts(DisplayIdFlag, d, rest);
    DigitRunOf(d, rest);
    DigitsValueOfNatToString(n);
    assert DisplayIdAt(s) == Some((n, |DisplayIdFlag| + |d|));
  }

  /** Where the three parts of a concatenation sit in it. */
  lemma ThreeParts(a: string, b: string, c: string)
    ensures (a + b + c)[..|a|] == a && (a + b + c)[|a|..] == b + c
    ensures (b + c)[..|b|] == b && (a + b + c)[|a| + |b|..] == c
  {
  }

  lemma {:induction false} DigitRunOf(d: string, rest: string)
    requires AllDigits(d)
    requires rest == [] || !IsDigit(rest[0])
    ensures DigitRun(d + rest) == |d|
  {
    if d != [] {
      assert (d + rest)[1..] == d[1..] + rest;
      DigitRunOf(d[1..], rest);
    } else {
      assert d + rest == rest;
    }
  }
}
