/**
 * The conversation helpers of the phone agent's model client: building
 * system, user and assistant messages, stripping screenshots from a
 * message, the screen-info record, and splitting a model reply into its
 * "thinking" and "action" parts.
 */
module ModelClient {
  import opened Wrappers
  import opened Strings
  import opened JsValues

  datatype Role = System | User | Assistant

  /** One item of a multi-part message: a text, or an image given by URL. */
  datatype Part = TextPart(text: string) | ImagePart(url: string)

  /** A message's content: a plain string, or an array of parts. */
  datatype Content = Plain(text: string) | Parts(parts: seq<Part>)

  /** A chat message; its content is replaced in place when images are removed. */
  class Message {
    const role: Role
    var content: Content

    constructor(role: Role, content: Content)
      ensures this.role == role && this.content == content
    {
      this.role := role;
      this.content := content;
    }
  }

  /** The data-URL prefix put before a base64 screenshot. */
  const ImageUrlPrefix := "data:image/png;base64,"

  /** createSystemMessage */
  method CreateSystemMessage(content: string) returns (m: Message)
    ensures fresh(m) && m.role == System && m.content == Plain(content)
  {
    m := new Message(System, Plain(content));
  }

  /** createAssistantMessage */
  method CreateAssistantMessage(content: string) returns (m: Message)
    ensures fresh(m) && m.role == Assistant && m.content == Plain(content)
  {
    m := new Message(Assistant, Plain(content));
  }

  /** The parts of a user message: the screenshot first when one is given (an empty one counts as absent), then the text. */
  function UserParts(text: string, imageBase64: Option<string>): (r: seq<Part>)
  {
    (if imageBase64.Some? && imageBase64.value != "" then [ImagePart(ImageUrlPrefix + imageBase64.value)] else [])
    + [TextPart(text)]
  }

  /** createUserMessage */
  method CreateUserMessage(text: string, imageBase64: Option<string>) returns (m: Message)
    ensures fresh(m) && m.role == User && m.content == Parts(UserParts(text, imageBase64))
  {
    var content: seq<Part> := [];
    if imageBase64.Some? && imageBase64.value != "" {
      content := content + [ImagePart(ImageUrlPrefix + imageBase64.value)];
    }
    content := content + [TextPart(text)];
    m := new Message(User, Parts(content));
  }

  /** A user message carries its text last, and an image before it exactly when a non-empty one is given. */
  lemma UserPartsShape(text: string, imageBase64: Option<string>)
    ensures UserParts(text, imageBase64)[|UserParts(text, imageBase64)| - 1] == TextPart(text)
    ensures |UserParts(text, imageBase64)| == 2 <==> imageBase64.Some? && imageBase64.value != ""
    ensures |UserParts(text, imageBase64)| == 2 ==>
      UserParts(text, imageBase64)[0] == ImagePart(ImageUrlPrefix + imageBase64.value)
  {
  }

  /** content.filter(item => item.type === 'text'): the text parts, in order. */
  function TextOnly(parts: seq<Part>): (r: seq<Part>)
    ensures |r| <= |parts|
    ensures forall k :: 0 <= k < |r| ==> r[k].TextPart?
    ensures forall p :: p in r <==> p in parts && p.TextPart?
  {
    if parts == [] then []
    else if parts[0].TextPart? then [parts[0]] + TextOnly(parts[1..])
    else TextOnly(parts[1..])
  }

  /** Filtering distributes over concatenation. */
  lemma {:induction false} TextOnlyAppend(a: seq<Part>, b: seq<Part>)
    ensures TextOnly(a + b) == TextOnly(a) + TextOnly(b)
  {
    if a == [] {
      assert a + b == b;
    } else {
      assert (a + b)[0] == a[0] && (a + b)[1..] == a[1..] + b;
      TextOnlyAppend(a[1..], b);
    }
  }

  /** Text parts pass the filter unchanged, so removing images twice removes nothing more. */
  lemma {:induction false} TextOnlyKeepsText(parts: seq<Part>)
    requires forall k :: 0 <= k < |parts| ==> parts[k].TextPart?
    ensures TextOnly(parts) == parts
  {
    if parts != [] {
      TextOnlyKeepsText(parts[1..]);
    }
  }

  /** Removing the images of a user message leaves exactly its text. */
  lemma TextOfUserMessage(text: string, imageBase64: Option<string>)
    ensures TextOnly(UserParts(text, imageBase64)) == [TextPart(text)]
  {
    var image := if imageBase64.Some? && imageBase64.value != "" then [ImagePart(ImageUrlPrefix + imageBase64.value)] else [];
    TextOnlyAppend(image, [TextPart(text)]);
  }

  /**
   * removeImagesFromMessage: an array content keeps only its text parts, in
   * place; a string content is left alone. The same message is returned.
   */
  method RemoveImagesFromMessage(message: Message) returns (r: Message)
    modifies message
    ensures r == message
    ensures old(message.content).Parts? ==> message.content == Parts(TextOnly(old(message.content).parts))
    ensures old(message.content).Plain? ==> message.content == old(message.content)
  {
    if message.content.Parts? {
      message.content := Parts(TextOnly(message.content.parts));
    }
    return message;
  }

  /** An object property write: the first entry with the key gets the value, else the entry is appended. */
  function SetProperty(entries: seq<(string, Value)>, key: string, v: Value): (r: seq<(string, Value)>)
    ensures EntryLookup(r, key) == Some(v)
    ensures forall k :: k != key ==> EntryLookup(r, k) == EntryLookup(entries, k)
  {
    if entries == [] then [(key, v)]
    else if entries[0].0 == key then [(key, v)] + entries[1..]
    else [entries[0]] + SetProperty(entries[1..], key, v)
  }

  /** The value of the last entry with the key: the one an object literal or a spread keeps. */
  function LastLookup(entries: seq<(string, Value)>, key: string): (r: Option<Value>)
  {
    if entries == [] then None
    else if entries[|entries| - 1].0 == key then Some(entries[|entries| - 1].1)
    else LastLookup(entries[..|entries| - 1], key)
  }

  /** `{ ...base, ...extra }`: the entries of `extra` written one after the other. */
  function Spread(base: seq<(string, Value)>, extra: seq<(string, Value)>): seq<(string, Value)>
  {
    if extra == [] then base
    else SetProperty(Spread(base, extra[..|extra| - 1]), extra[|extra| - 1].0, extra[|extra| - 1].1)
  }

  /** After a spread, a key holds the spread's last value for it, else the base's. */
  lemma {:induction false} SpreadLookup(base: seq<(string, Value)>, extra: seq<(string, Value)>, key: string)
    ensures EntryLookup(Spread(base, extra), key) ==
      if LastLookup(extra, key).Some? then LastLookup(extra, key) else EntryLookup(base, key)
  {
    if extra != [] {
      SpreadLookup(base, extra[..|extra| - 1], key);
    }
  }

  /**
   * The record buildScreenInfo serialises: current_app, overridden by
   * extraInfo's own current_app if it has one, and every other field of
   * extraInfo. (A missing extraInfo is an empty one.)
   */
  function ScreenInfo(currentApp: string, extraInfo: seq<(string, Value)>): (r: Value)
    ensures r.Obj?
  {
    Obj(Spread([("current_app", Str(currentApp))], extraInfo))
  }

  /** What each field of the screen info reads back as. */
  lemma ScreenInfoFields(currentApp: string, extraInfo: seq<(string, Value)>, key: string)
    ensures Get(ScreenInfo(currentApp, extraInfo), key) ==
      if LastLookup(extraInfo, key).Some? then LastLookup(extraInfo, key).value
      else if key == "current_app" then Str(currentApp)
      else Undefined
  {
    SpreadLookup([("current_app", Str(currentApp))], extraInfo, key);
    if key != "current_app" {
      assert EntryLookup([("current_app", Str(currentApp))], key) == None;
    }
  }

  /** The action markers of the current reply format, tried in this order. */
  const FinishMarker := "finish(message="
  const DoMarker := "do(action="
  /** The tags of the legacy XML reply format. */
  const AnswerTag := "<answer>"

  /** The text before the first occurrence of `sep`, or all of `s`. */
  function Before(s: string, sep: string): (r: string)
    ensures StartsWith(s, r)
  {
    var i := IndexOf(s, sep);
    if i < 0 then s else s[..i]
  }

  /** The text after the first occurrence of `sep` (which must occur). */
  function After(s: string, sep: string): (r: string)
    requires Contains(s, sep)
    ensures EndsWith(s, r)
  {
    s[IndexOf(s, sep) + |sep|..]
  }

  /** The first two pieces of s.split(sep), when sep occurs. */
  lemma SplitFirstTwo(s: string, sep: string)
    requires |sep| > 0 && Contains(s, sep)
    ensures |Split(s, sep)| >= 2
    ensures Split(s, sep)[0] == Before(s, sep)
    ensures Split(s, sep)[1] == Before(After(s, sep), sep)
  {
    var rest := After(s, sep);
    assert Split(rest, sep)[0] == Before(rest, sep);
  }

  /**
   * _parseResponse: the reply cut into [thinking, action]. A
   * `finish(message=` marker wins over a `do(action=` marker, which wins
   * over the legacy `<answer>` tag; the thinking is the trimmed text before
   * the first marker. With none of them, the whole reply is the action.
   */
  function ParseResponse(content: string): (r: (string, string))
  {
    if Contains(content, FinishMarker) then
      var parts := Split(content, FinishMarker);
      SplitFirstTwo(content, FinishMarker);
      (Trim(parts[0]), FinishMarker + parts[1])
    else if Contains(content, DoMarker) then
      var parts := Split(content, DoMarker);
      SplitFirstTwo(content, DoMarker);
      (Trim(parts[0]), DoMarker + parts[1])
    else if Contains(content, AnswerTag) then
      var parts := Split(content, AnswerTag);
      SplitFirstTwo(content, AnswerTag);
      var thinking := Trim(ReplaceFirst(ReplaceFirst(parts[0], "<think>", ""), "</think>", ""));
      var action := Trim(ReplaceFirst(parts[1], "</answer>", ""));
      (thinking, action)
    else
      ("", content)
  }

  /**
   * The marker the reply is cut at, by priority. A finish marker is
   * chosen whenever there is one, a do marker only when there is no finish
   * marker.
   */
  function ActionMarker(content: string): Option<string>
  {
    if Contains(content, FinishMarker) then Some(FinishMarker)
    else if Contains(content, DoMarker) then Some(DoMarker)
    else None
  }

  /** With an action marker, the reply is cut at that marker. */
  lemma ParseAtMarker(content: string)
    requires ActionMarker(content).Some?
    ensures var m := ActionMarker(content).value;
      ParseResponse(content) == (Trim(Before(content, m)), m + Before(After(content, m), m))
  {
    var m := ActionMarker(content).value;
    var parts := Split(content, m);
    SplitFirstTwo(content, m);
    assert ParseResponse(content) == (Trim(parts[0]), m + parts[1]);
  }

  /**
   * With an action marker, the thinking is the trimmed text before its
   * first occurrence and the action runs from that occurrence up to the
   * marker's next occurrence (or the end): the action starts with the
   * marker and holds no second one.
   */
  lemma ParseMarked(content: string)
    requires ActionMarker(content).Some?
    ensures var m := ActionMarker(content).value;
      && ParseResponse(content).0 == Trim(content[..IndexOf(content, m)])
      && ParseResponse(content).1 == m + Before(After(content, m), m)
      && StartsWith(ParseResponse(content).1, m)
      && !Contains(ParseResponse(content).1[|m|..], m)
  {
    var m := ActionMarker(content).value;
    ParseAtMarker(content);
    var b := Before(After(content, m), m);
    assert (m + b)[..|m|] == m;
    assert (m + b)[|m|..] == b;
    BeforeHasNoSep(After(content, m), m);
  }

  /** The text before the first occurrence of `sep` does not contain it. */
  lemma BeforeHasNoSep(s: string, sep: string)
    requires |sep| > 0
    ensures !Contains(Before(s, sep), sep)
  {
    var b := Before(s, sep);
    var i := IndexOf(s, sep);
    if i >= 0 {
      forall j | 0 <= j
        ensures !OccursAt(b, sep, j)
      {
        if OccursAt(b, sep, j) {
          assert s[j..j + |sep|] == b[j..j + |sep|];
          assert OccursAt(s, sep, j) && j < i;
        }
      }
    }
  }

  /**
   * When the chosen marker occurs only once, nothing is lost: the text
   * before it followed by the action is the whole reply.
   */
  lemma ParseSingleMarker(content: string)
    requires ActionMarker(content).Some?
    requires !Contains(After(content, ActionMarker(content).value), ActionMarker(content).value)
    ensures content == content[..IndexOf(content, ActionMarker(content).value)] + ParseResponse(content).1
  {
    ParseAtMarker(content);
    CutOnce(content, ActionMarker(content).value);
  }

  /** Cutting at the only occurrence of a separator loses nothing. */
  lemma CutOnce(s: string, sep: string)
    requires Contains(s, sep) && !Contains(After(s, sep), sep)
    ensures s == s[..IndexOf(s, sep)] + (sep + Before(After(s, sep), sep))
  {
    var i := IndexOf(s, sep);
    var rest := After(s, sep);
    assert rest == s[i + |sep|..];
    assert Before(rest, sep) == rest;
    assert s[i..i + |sep|] == sep;
    assert s[i..] == s[i..i + |sep|] + rest;
    assert s == s[..i] + s[i..];
  }

  /** A finish marker takes precedence even when a do marker comes first. */
  lemma FinishWins(content: string)
    requires Contains(content, FinishMarker)
    ensures StartsWith(ParseResponse(content).1, FinishMarker)
  {
    ParseMarked(content);
  }

  /**
   * The legacy format: the thinking is the text before `<answer>` with its
   * first `<think>` and `</think>` removed, and the action the text after
   * it up to any second `<answer>`, with its first `</answer>` removed,
   * both trimmed.
   */
  lemma ParseLegacy(content: string)
    requires ActionMarker(content).None? && Contains(content, AnswerTag)
    ensures ParseResponse(content) == (
      Trim(ReplaceFirst(ReplaceFirst(content[..IndexOf(content, AnswerTag)], "<think>", ""), "</think>", "")),
      Trim(ReplaceFirst(Before(After(content, AnswerTag), AnswerTag), "</answer>", "")))
  {
    var parts := Split(content, AnswerTag);
    SplitFirstTwo(content, AnswerTag);
    assert !Contains(content, FinishMarker) && !Contains(content, DoMarker);
    assert ParseResponse(content) == (
      Trim(ReplaceFirst(ReplaceFirst(parts[0], "<think>", ""), "</think>", "")),
      Trim(ReplaceFirst(parts[1], "</answer>", "")));
  }

  /** A reply with none of the markers or tags is all action and no thinking. */
  lemma ParseUnmarked(content: string)
    requires !Contains(content, FinishMarker) && !Contains(content, DoMarker) && !Contains(content, AnswerTag)
    ensures ParseResponse(content) == ("", content)
  {
  }

  /** The ModelResponse request returns: the parsed parts and the raw reply. */
  datatype ModelResponse = ModelResponse(thinking: string, action: string, rawContent: string)

  /**
   * The reply handling of request: an absent or empty reply throws
   * "Empty response from model"; otherwise the reply is parsed.
   */
  function HandleReply(rawContent: Option<string>): (r: Result<ModelResponse, string>)
    ensures r.Err? <==> rawContent.None? || rawContent.value == ""
    ensures r.Err? ==> r.error == "Empty response from model"
    ensures r.Ok? ==> r.value.rawContent == rawContent.value
    ensures r.Ok? ==> (r.value.thinking, r.value.action) == ParseResponse(rawContent.value)
  {
    if rawContent.None? || rawContent.value == "" then Err("Empty response from model")
    else
      var parsed := ParseResponse(rawContent.value);
      Ok(ModelResponse(parsed.0, parsed.1, rawContent.value))
  }
}
