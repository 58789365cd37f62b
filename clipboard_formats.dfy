/**
 * The clipboard payload formats built when a file path is copied: the
 * Windows CF_HDROP byte layout (a DROPFILES header followed by the
 * NUL-terminated UTF-16LE file list) and the XML escaping of the macOS
 * property list.
 * Source: desktop/electron/helpers/clipboard.js
 */
module ClipboardFormats {
  import opened Wrappers
  import opened Strings
  import opened JsValues

  // ---------------------------------------------------------------------
  // escapeXml
  // ---------------------------------------------------------------------

  /** The chain of global replaces, '&' first. */
  function ReplaceChain(s: string): string {
    ReplaceAllChar(ReplaceAllChar(ReplaceAllChar(ReplaceAllChar(ReplaceAllChar(
      s, '&', "&amp;"), '<', "&lt;"), '>', "&gt;"), '"', "&quot;"), '\'', "&apos;")
  }

  /** escapeXml: String(str) for anything but a string. */
  function EscapeXml(str: Value): (r: string)
    ensures !str.Str? ==> r == ToStr(str)
  {
    if !str.Str? then ToStr(str) else ReplaceChain(str.s)
  }

  /** The entity a single character is written as. */
  function EscapeChar(c: char): string {
    if c == '&' then "&amp;"
    else if c == '<' then "&lt;"
    else if c == '>' then "&gt;"
    else if c == '"' then "&quot;"
    else if c == '\'' then "&apos;"
    else [c]
  }

  /** Every character replaced by its entity in one pass. */
  function EscapeEach(s: string): string {
    if s == [] then [] else EscapeChar(s[0]) + EscapeEach(s[1..])
  }

  lemma ReplaceChainAppend(a: string, b: string)
    ensures ReplaceChain(a + b) == ReplaceChain(a) + ReplaceChain(b)
  {
    ReplaceAllCharAppend(a, b, '&', "&amp;");
    var a1 := ReplaceAllChar(a, '&', "&amp;");
    var b1 := ReplaceAllChar(b, '&', "&amp;");
    ReplaceAllCharAppend(a1, b1, '<', "&lt;");
    var a2 := ReplaceAllChar(a1, '<', "&lt;");
    var b2 := ReplaceAllChar(b1, '<', "&lt;");
    ReplaceAllCharAppend(a2, b2, '>', "&gt;");
    var a3 := ReplaceAllChar(a2, '>', "&gt;");
    var b3 := ReplaceAllChar(b2, '>', "&gt;");
    ReplaceAllCharAppend(a3, b3, '"', "&quot;");
    var a4 := ReplaceAllChar(a3, '"', "&quot;");
    var b4 := ReplaceAllChar(b3, '"', "&quot;");
    ReplaceAllCharAppend(a4, b4, '\'', "&apos;");
  }

  lemma ReplaceOne(c: char, d: char, rep: string)
    ensures ReplaceAllChar([c], d, rep) == if c == d then rep else [c]
  {
    assert [c][1..] == [];
  }

  /** The replaces after '&' leave a text without the other reserved characters alone. */
  lemma ReplaceLater(s: string)
    requires '<' !in s && '>' !in s && '"' !in s && '\'' !in s
    ensures ReplaceAllChar(ReplaceAllChar(ReplaceAllChar(ReplaceAllChar(
      s, '<', "&lt;"), '>', "&gt;"), '"', "&quot;"), '\'', "&apos;") == s
  {
  }

  lemma ReplaceChainAmp()
    ensures ReplaceChain("&") == "&amp;"
  {
    ReplaceOne('&', '&', "&amp;");
    var e := "&amp;";
    assert forall i :: 0 <= i < |e| ==> e[i] in {'&', 'a', 'm', 'p', ';'};
    ReplaceLater(e);
  }

  lemma ReplaceChainLt()
    ensures ReplaceChain("<") == "&lt;"
  {
    ReplaceOne('<', '&', "&amp;");
    ReplaceOne('<', '<', "&lt;");
    var e := "&lt;";
    assert forall i :: 0 <= i < |e| ==> e[i] in {'&', 'l', 't', ';'};
    assert '>' !in e && '"' !in e && '\'' !in e;
  }

  lemma ReplaceChainGt()
    ensures ReplaceChain(">") == "&gt;"
  {
    ReplaceOne('>', '&', "&amp;");
    ReplaceOne('>', '<', "&lt;");
    ReplaceOne('>', '>', "&gt;");
    var e := "&gt;";
    assert forall i :: 0 <= i < |e| ==> e[i] in {'&', 'g', 't', ';'};
    assert '"' !in e && '\'' !in e;
  }

  lemma ReplaceChainQuot()
    ensures ReplaceChain("\"") == "&quot;"
  {
    ReplaceOne('"', '&', "&amp;");
    ReplaceOne('"', '<', "&lt;");
    ReplaceOne('"', '>', "&gt;");
    ReplaceOne('"', '"', "&quot;");
  }

  lemma ReplaceChainApos()
    ensures ReplaceChain("'") == "&apos;"
  {
    ReplaceOne('\'', '&', "&amp;");
    ReplaceOne('\'', '<', "&lt;");
    ReplaceOne('\'', '>', "&gt;");
    ReplaceOne('\'', '"', "&quot;");
    ReplaceOne('\'', '\'', "&apos;");
  }

  lemma ReplaceChainOther(c: char)
    requires c != '&' && c != '<' && c != '>' && c != '"' && c != '\''
    ensures ReplaceChain([c]) == [c]
  {
    ReplaceOne(c, '&', "&amp;");
    ReplaceOne(c, '<', "&lt;");
    ReplaceOne(c, '>', "&gt;");
    ReplaceOne(c, '"', "&quot;");
    ReplaceOne(c, '\'', "&apos;");
  }

  lemma ReplaceChainChar(c: char)
    ensures ReplaceChain([c]) == EscapeChar(c)
  {
    if c == '&' { ReplaceChainAmp(); }
    else if c == '<' { ReplaceChainLt(); }
    else if c == '>' { ReplaceChainGt(); }
    else if c == '"' { ReplaceChainQuot(); }
    else if c == '\'' { ReplaceChainApos(); }
    else { ReplaceChainOther(c); }
  }

  /**
   * Because '&' is replaced first, the chain of replaces writes every
   * character as its own entity exactly once: no entity is escaped twice.
   */
  lemma {:induction false} ReplaceChainIsEscapeEach(s: string)
    ensures ReplaceChain(s) == EscapeEach(s)
  {
    if s == [] {
      assert ReplaceChain(s) == [];
    } else {
      assert s == [s[0]] + s[1..];
      ReplaceChainAppend([s[0]], s[1..]);
      ReplaceChainChar(s[0]);
      ReplaceChainIsEscapeEach(s[1..]);
    }
  }

  /** Reading the entities back: None for an '&' that starts no known entity. */
  function UnescapeXml(s: string): (r: Option<string>)
    decreases |s|
  {
    if s == [] then Some([])
    else if s[0] != '&' then
      match UnescapeXml(s[1..])
      case Some(rest) => Some([s[0]] + rest)
      case None => None
    else
      var entity :=
        if StartsWith(s, "&amp;") then Some(('&', 5))
        else if StartsWith(s, "&lt;") then Some(('<', 4))
        else if StartsWith(s, "&gt;") then Some(('>', 4))
        else if StartsWith(s, "&quot;") then Some(('"', 6))
        else if StartsWith(s, "&apos;") then Some(('\'', 6))
        else None;
      match entity
      case None => None
      case Some(e) =>
        match UnescapeXml(s[e.1..])
        case Some(rest) => Some([e.0] + rest)
        case None => None
  }

  lemma UnescapeEscapeChar(c: char, rest: string)
    ensures UnescapeXml(EscapeChar(c) + rest) ==
      match UnescapeXml(rest)
      case Some(t) => Some([c] + t)
      case None => None
  {
    var s := EscapeChar(c) + rest;
    var n := |EscapeChar(c)|;
    assert s[..n] == EscapeChar(c);
    assert s[n..] == rest;
    if c == '&' {
      assert StartsWith(s, "&amp;");
    } else if c == '<' {
      assert s[1] == 'l';
      assert StartsWith(s, "&lt;");
    } else if c == '>' {
      assert s[1] == 'g';
      assert StartsWith(s, "&gt;");
    } else if c == '"' {
      assert s[1] == 'q';
      assert StartsWith(s, "&quot;");
    } else if c == '\'' {
      assert s[1] == 'a' && s[2] == 'p';
      assert StartsWith(s, "&apos;");
    } else {
      assert s[0] == c;
      assert s[1..] == rest;
    }
  }

  /** escapeXml is undone by reading its entities back. */
  lemma {:induction false} UnescapeEscapeXml(s: string)
    ensures UnescapeXml(EscapeXml(Str(s))) == Some(s)
  {
    ReplaceChainIsEscapeEach(s);
    UnescapeEscapeEach(s);
  }

  lemma {:induction false} UnescapeEscapeEach(s: string)
    ensures UnescapeXml(EscapeEach(s)) == Some(s)
  {
    if s != [] {
      UnescapeEscapeEach(s[1..]);
      UnescapeEscapeChar(s[0], EscapeEach(s[1..]));
      assert s == [s[0]] + s[1..];
    }
  }

  /** The escaped text holds none of the characters XML reserves, except '&' as the start of an entity. */
  lemma {:induction false} EscapeEachReserved(s: string)
    ensures '<' !in EscapeEach(s) && '>' !in EscapeEach(s) && '"' !in EscapeEach(s) && '\'' !in EscapeEach(s)
  {
    if s != [] {
      EscapeEachReserved(s[1..]);
      var e := EscapeChar(s[0]);
      assert '<' !in e && '>' !in e && '"' !in e && '\'' !in e by {
        if s[0] == '&' { assert e == "&amp;"; }
        else if s[0] == '<' { assert e == "&lt;"; }
        else if s[0] == '>' { assert e == "&gt;"; }
        else if s[0] == '"' { assert e == "&quot;"; }
        else if s[0] == '\'' { assert e == "&apos;"; }
        else { assert e == [s[0]]; }
      }
    }
  }

  // ---------------------------------------------------------------------
  // createCFHDROPBuffer
  // ---------------------------------------------------------------------

  newtype byte = x: int | 0 <= x < 256

  const HeaderSize: nat := 20

  /** Buffer.from(text, 'utf16le') on code units: two bytes per unit, low byte first. */
  function Utf16Le(units: seq<nat>): (r: seq<byte>)
    requires forall k :: 0 <= k < |units| ==> units[k] < 0x1_0000
    ensures |r| == 2 * |units|
  {
    if units == [] then [] else [(units[0] % 256) as byte, (units[0] / 256) as byte] + Utf16Le(units[1..])
  }

  /** writeUInt32LE: four bytes, least significant first. */
  function U32Le(v: nat): (r: seq<byte>)
    requires v < 0x1_0000_0000
    ensures |r| == 4
  {
    var q1 := v / 256;
    var q2 := q1 / 256;
    assert q2 / 256 < 256;
    [(v % 256) as byte, (q1 % 256) as byte, (q2 % 256) as byte, (q2 / 256) as byte]
  }

  function ReadU32Le(b: seq<byte>, offset: nat): nat
    requires offset + 4 <= |b|
  {
    b[offset] as nat + 256 * b[offset + 1] as nat + 0x1_0000 * b[offset + 2] as nat + 0x100_0000 * b[offset + 3] as nat
  }

  lemma ReadU32LeOfU32Le(v: nat)
    requires v < 0x1_0000_0000
    ensures ReadU32Le(U32Le(v), 0) == v
  {
    var q1 := v / 256;
    var q2 := q1 / 256;
    assert v == v % 256 + 256 * q1;
    assert q1 == q1 % 256 + 256 * q2;
    assert q2 == q2 % 256 + 256 * (q2 / 256);
  }

  /** The DROPFILES header: pFiles = 20, pt.x = pt.y = fNC = 0, fWide = 1. */
  function DropFilesHeader(): (r: seq<byte>)
    ensures |r| == HeaderSize
  {
    U32Le(20) + U32Le(0) + U32Le(0) + U32Le(0) + U32Le(1)
  }

  /** The bytes createCFHDROPBuffer returns for a path. */
  function CFHDrop(path: string): (r: seq<byte>)
    ensures |r| == HeaderSize + 2 * (Utf16Length(path) + 1) + 4
    ensures r[..HeaderSize] == DropFilesHeader()
  {
    var units := Utf16Units(path + "\0");
    assert units == Utf16Units(path) + [0] by { Utf16UnitsAppend(path, "\0"); }
    Utf16LengthUnits(path);
    DropFilesHeader() + Utf16Le(units) + Utf16Le(Utf16Units("\0\0"))
  }

  lemma {:induction false} Utf16UnitsAppend(a: string, b: string)
    ensures Utf16Units(a + b) == Utf16Units(a) + Utf16Units(b)
  {
    if a == [] {
      assert a + b == b;
    } else {
      assert (a + b)[1..] == a[1..] + b;
      Utf16UnitsAppend(a[1..], b);
    }
  }

  /** writeUInt32LE(value, offset) on an allocated buffer. */
  method WriteUInt32LE(buf: array<byte>, value: nat, offset: nat)
    requires value < 0x1_0000_0000 && offset + 4 <= buf.Length
    modifies buf
    ensures buf[..] == old(buf[..offset]) + U32Le(value) + old(buf[offset + 4..])
  {
    var bytes := U32Le(value);
    buf[offset] := bytes[0];
    buf[offset + 1] := bytes[1];
    buf[offset + 2] := bytes[2];
    buf[offset + 3] := bytes[3];
  }

  /** The DROPFILES header written word by word into a zeroed buffer. */
  method WriteDropFilesHeader() returns (header: array<byte>)
    ensures fresh(header) && header[..] == DropFilesHeader()
  {
    header := new byte[HeaderSize](_ => 0);
    WriteUInt32LE(header, 20, 0);
    assert header[..4] == U32Le(20);
    WriteUInt32LE(header, 0, 4);
    assert header[..8] == U32Le(20) + U32Le(0);
    WriteUInt32LE(header, 0, 8);
    assert header[..12] == U32Le(20) + U32Le(0) + U32Le(0);
    WriteUInt32LE(header, 0, 12);
    assert header[..16] == U32Le(20) + U32Le(0) + U32Le(0) + U32Le(0);
    WriteUInt32LE(header, 1, 16);
    assert header[..] == header[..16] + U32Le(1);
  }

  /** createCFHDROPBuffer: the header, then the path and the double NUL. */
  method CreateCFHDropBuffer(filePath: string) returns (r: seq<byte>)
    ensures r == CFHDrop(filePath)
  {
    var header := WriteDropFilesHeader();
    var pathBuffer := Utf16Le(Utf16Units(filePath + "\0"));
    var doubleNull := Utf16Le(Utf16Units("\0\0"));
    r := header[..] + pathBuffer + doubleNull;
  }

  // Reading a CF_HDROP payload back

  /** The code units of a little-endian byte sequence; an odd trailing byte is ignored. */
  function UnitsOf(b: seq<byte>): (r: seq<nat>)
    decreases |b|
  {
    if |b| < 2 then [] else [b[0] as nat + 256 * b[1] as nat] + UnitsOf(b[2..])
  }

  lemma {:induction false} UnitsOfUtf16Le(units: seq<nat>)
    requires forall k :: 0 <= k < |units| ==> units[k] < 0x1_0000
    ensures UnitsOf(Utf16Le(units)) == units
  {
    if units != [] {
      var b := Utf16Le(units);
      assert b[2..] == Utf16Le(units[1..]);
      UnitsOfUtf16Le(units[1..]);
    }
  }

  predicate IsHighSurrogate(u: nat) { 0xD800 <= u < 0xDC00 }
  predicate IsLowSurrogate(u: nat) { 0xDC00 <= u < 0xE000 }

  /** UTF-16 decoding; None for an unpaired surrogate. */
  function DecodeUtf16(units: seq<nat>): Option<string>
    decreases |units|
  {
    if units == [] then Some([])
    else
      var u := units[0];
      if u < 0xD800 || (0xE000 <= u < 0x11_0000) then
        match DecodeUtf16(units[1..])
        case Some(rest) => Some([u as char] + rest)
        case None => None
      else if IsHighSurrogate(u) && |units| >= 2 && IsLowSurrogate(units[1]) then
        var v := 0x1_0000 + (u - 0xD800) * 0x400 + (units[1] - 0xDC00);
        match DecodeUtf16(units[2..])
        case Some(rest) => Some([v as char] + rest)
        case None => None
      else None
  }

  lemma SurrogatePair(v: int)
    requires 0x1_0000 <= v < 0x11_0000
    ensures IsHighSurrogate(0xD800 + (v - 0x1_0000) / 0x400)
    ensures IsLowSurrogate(0xDC00 + (v - 0x1_0000) % 0x400)
    ensures 0x1_0000 + ((v - 0x1_0000) / 0x400) * 0x400 + (v - 0x1_0000) % 0x400 == v
  {
  }

  lemma {:induction false} DecodeUtf16OfUnits(s: string)
    ensures DecodeUtf16(Utf16Units(s)) == Some(s)
  {
    if s != [] {
      var v := s[0] as int;
      var units := Utf16Units(s);
      DecodeUtf16OfUnits(s[1..]);
      if v < 0x1_0000 {
        assert units[1..] == Utf16Units(s[1..]);
        assert (v as char) == s[0];
      } else {
        SurrogatePair(v);
        assert units[2..] == Utf16Units(s[1..]);
        assert units[0] - 0xD800 == (v - 0x1_0000) / 0x400;
        assert units[1] - 0xDC00 == (v - 0x1_0000) % 0x400;
      }
      assert s == [s[0]] + s[1..];
    }
  }

  /** The units before the first NUL unit and the units after it; None when there is no NUL. */
  function TakeUntilNul(units: seq<nat>): (r: Option<(seq<nat>, seq<nat>)>)
    ensures r.Some? ==> |r.value.1| < |units|
  {
    if units == [] then None
    else if units[0] == 0 then Some(([], units[1..]))
    else
      match TakeUntilNul(units[1..])
      case Some(p) => Some(([units[0]] + p.0, p.1))
      case None => None
  }

  lemma {:induction false} TakeUntilNulOf(units: seq<nat>, rest: seq<nat>)
    requires forall k :: 0 <= k < |units| ==> units[k] != 0
    ensures TakeUntilNul(units + [0] + rest) == Some((units, rest))
  {
    var s := units + [0] + rest;
    if units == [] {
      assert s[1..] == rest;
    } else {
      assert s[1..] == units[1..] + [0] + rest;
      TakeUntilNulOf(units[1..], rest);
      assert [units[0]] + units[1..] == units;
    }
  }

  /** The NUL-terminated file names of the list, up to the empty name that ends it. */
  function FileList(units: seq<nat>): Option<seq<string>>
    decreases |units|
  {
    match TakeUntilNul(units)
    case None => None
    case Some(p) =>
      if p.0 == [] then Some([])
      else
        match DecodeUtf16(p.0)
        case None => None
        case Some(name) =>
          match FileList(p.1)
          case Some(names) => Some([name] + names)
          case None => None
  }

  /** A shell reading the payload: the header words, then the file list at pFiles in wide characters. */
  function ReadCFHDrop(b: seq<byte>): Option<seq<string>> {
    if |b| < HeaderSize || ReadU32Le(b, 0) != HeaderSize || ReadU32Le(b, 16) != 1 then None
    else FileList(UnitsOf(b[HeaderSize..]))
  }

  lemma Utf16UnitsOfNuls()
    ensures Utf16Units("\0") == [0]
    ensures Utf16Units("\0\0") == [0, 0]
  {
    assert "\0\0"[1..] == "\0";
  }

  lemma CFHDropParts(path: string)
    ensures CFHDrop(path)[HeaderSize..] == Utf16Le(Utf16Units(path + "\0")) + Utf16Le(Utf16Units("\0\0"))
  {
    var x := Utf16Le(Utf16Units(path + "\0"));
    var y := Utf16Le(Utf16Units("\0\0"));
    assert CFHDrop(path) == DropFilesHeader() + x + y;
    DropPrefix(DropFilesHeader(), x, y);
  }

  lemma DropPrefix(h: seq<byte>, x: seq<byte>, y: seq<byte>)
    ensures (h + x + y)[|h|..] == x + y
  {
  }

  lemma CFHDropBody(path: string)
    ensures CFHDrop(path)[HeaderSize..] == Utf16Le(Utf16Units(path) + [0, 0, 0])
  {
    CFHDropParts(path);
    Utf16UnitsAppend(path, "\0");
    Utf16UnitsOfNuls();
    NulTerminated(Utf16Units(path));
  }

  /** One NUL unit after the units and two more after that are the units followed by three NULs. */
  lemma NulTerminated(units: seq<nat>)
    requires forall k :: 0 <= k < |units| ==> units[k] < 0x1_0000
    ensures Utf16Le(units + [0]) + Utf16Le([0, 0]) == Utf16Le(units + [0, 0, 0])
  {
    var a := units + [0];
    forall k | 0 <= k < |a| ensures a[k] < 0x1_0000 {
      if k < |units| {
        assert a[k] == units[k];
      }
    }
    AppendPair(a, 0);
    ThreeNuls(units);
  }

  lemma AppendPair(a: seq<nat>, z: nat)
    requires forall k :: 0 <= k < |a| ==> a[k] < 0x1_0000
    requires z < 0x1_0000
    ensures Utf16Le(a) + Utf16Le([z, z]) == Utf16Le(a + [z, z])
  {
    var b := [z, z];
    forall k | 0 <= k < |b| ensures b[k] < 0x1_0000 {
      assert k == 0 || k == 1;
    }
    Utf16LeAppend(a, b);
  }

  lemma ThreeNuls(u: seq<nat>)
    ensures u + [0] + [0, 0] == u + [0, 0, 0]
  {
    var x, y := u + [0] + [0, 0], u + [0, 0, 0];
    assert |x| == |y|;
    forall k | 0 <= k < |x| ensures x[k] == y[k] {
      if k < |u| {
        assert x[k] == u[k] == y[k];
      }
    }
  }

  lemma CFHDropHeader(path: string)
    ensures ReadU32Le(CFHDrop(path), 0) == HeaderSize && ReadU32Le(CFHDrop(path), 16) == 1
  {
    var b := CFHDrop(path);
    var h := DropFilesHeader();
    assert b[..HeaderSize] == h;
    assert b[0] == h[0] && b[1] == h[1] && b[2] == h[2] && b[3] == h[3];
    assert b[16] == h[16] && b[17] == h[17] && b[18] == h[18] && b[19] == h[19];
  }

  lemma FileListOfOne(path: string)
    requires path != [] && '\0' !in path
    ensures FileList(Utf16Units(path) + [0, 0, 0]) == Some([path])
  {
    var units := Utf16Units(path);
    assert units + [0, 0, 0] == units + [0] + [0, 0];
    TakeUntilNulOf(units, [0, 0]);
    DecodeUtf16OfUnits(path);
    assert TakeUntilNul([0, 0]) == Some(([], [0]));
    assert FileList([0, 0]) == Some([]);
    assert |units| >= |path|;
    assert TakeUntilNul(units + [0, 0, 0]) == Some((units, [0, 0]));
    assert [path] + [] == [path];
  }

  /** The payload for a non-empty path without NUL characters reads back as the one-file list holding that path. */
  lemma ReadCFHDropRoundTrip(path: string)
    requires path != [] && '\0' !in path
    ensures ReadCFHDrop(CFHDrop(path)) == Some([path])
  {
    CFHDropHeader(path);
    CFHDropBody(path);
    UnitsOfUtf16Le(Utf16Units(path) + [0, 0, 0]);
    FileListOfOne(path);
  }

  lemma {:induction false} Utf16LeAppend(a: seq<nat>, b: seq<nat>)
    requires forall k :: 0 <= k < |a| ==> a[k] < 0x1_0000
    requires forall k :: 0 <= k < |b| ==> b[k] < 0x1_0000
    ensures Utf16Le(a + b) == Utf16Le(a) + Utf16Le(b)
  {
    if a == [] {
      assert a + b == b;
    } else {
      assert (a + b)[1..] == a[1..] + b;
      Utf16LeAppend(a[1..], b);
    }
  }
}
