/**
 * The file-icon plugin's icon table: icon types (in insertion order) with
 * their icon, colour and extensions, the extension cache built from them
 * (later types win), and the lookup from a file or type name to an icon.
 * Source: desktop/src/plugins/file-icon/utils/iconMap.js
 */
module IconMap {
  import opened Wrappers
  import opened Strings
  import opened JsValues

  /** One value of FILE_ICON_MAP. */
  datatype IconConfig = IconConfig(icon: string, color: string, extensions: Option<seq<string>>)

  /** The object getFileIconInfo returns: the type's configuration spread, plus its type name. */
  datatype IconInfo = IconInfo(config: IconConfig, iconType: string)

  /** What getFileIconInfo is given: a string, an object with type/name/isDirectory, or nothing usable. */
  datatype IconQuery = Text(s: string) | Entry(kind: string, name: string, isDirectory: bool) | Absent

  type IconTable = seq<(string, IconConfig)>

  function Exts(xs: seq<string>): Option<seq<string>> { Some(xs) }

  /** FILE_ICON_MAP as the module defines it. */
  const DefaultIconTable: IconTable := [
    ("directory", IconConfig("i-mdi-folder", "text-yellow-500", None)),
    ("image", IconConfig("i-mdi-file-image", "text-green-500",
      Exts([".jpg", ".jpeg", ".png", ".gif", ".bmp", ".webp", ".svg", ".ico", ".heic", ".heif"]))),
    ("video", IconConfig("i-mdi-file-video", "text-purple-500",
      Exts([".mp4", ".avi", ".mkv", ".mov", ".wmv", ".flv", ".webm", ".m4v", ".3gp", ".mpeg", ".mpg"]))),
    ("audio", IconConfig("i-mdi-file-music", "text-pink-500",
      Exts([".mp3", ".wav", ".flac", ".aac", ".ogg", ".wma", ".m4a", ".opus", ".ape"]))),
    ("document", IconConfig("i-mdi-file-document", "text-blue-500",
      Exts([".doc", ".docx", ".pdf", ".xls", ".xlsx", ".ppt", ".pptx", ".odt", ".ods", ".odp"]))),
    ("archive", IconConfig("i-mdi-folder-zip", "text-orange-500",
      Exts([".zip", ".rar", ".7z", ".tar", ".gz", ".bz2", ".xz", ".tgz", ".tbz2", ".iso"]))),
    ("code", IconConfig("i-mdi-file-code", "text-cyan-500",
      Exts([".js", ".ts", ".jsx", ".tsx", ".vue", ".py", ".java", ".c", ".cpp", ".h", ".hpp",
            ".go", ".rs", ".php", ".rb", ".swift", ".kt", ".cs", ".scala", ".r", ".m", ".mm"]))),
    ("text", IconConfig("i-mdi-file-document-outline", "text-gray-500",
      Exts([".txt", ".md", ".log", ".json", ".xml", ".yml", ".yaml", ".ini", ".conf", ".cfg", ".toml"]))),
    ("apk", IconConfig("i-mdi-android", "text-green-600", Exts([".apk"]))),
    ("executable", IconConfig("i-mdi-application", "text-red-500",
      Exts([".exe", ".msi", ".app", ".dmg", ".deb", ".rpm", ".sh", ".bat", ".cmd"]))),
    ("pdf", IconConfig("i-mdi-file-pdf-box", "text-red-600", Exts([".pdf"]))),
    ("excel", IconConfig("i-mdi-file-excel", "text-green-600", Exts([".xls", ".xlsx", ".csv"]))),
    ("word", IconConfig("i-mdi-file-word", "text-blue-600", Exts([".doc", ".docx"]))),
    ("powerpoint", IconConfig("i-mdi-file-powerpoint", "text-orange-600", Exts([".ppt", ".pptx"]))),
    ("font", IconConfig("i-mdi-format-font", "text-purple-600", Exts([".ttf", ".otf", ".woff", ".woff2", ".eot"]))),
    ("database", IconConfig("i-mdi-database", "text-teal-600", Exts([".db", ".sqlite", ".sql", ".mdb"]))),
    ("default", IconConfig("i-mdi-file", "text-gray-400", None))
  ]

  function Keys(t: IconTable): (r: seq<string>)
    ensures |r| == |t| && forall i :: 0 <= i < |t| ==> r[i] == t[i].0
  {
    seq(|t|, i requires 0 <= i < |t| => t[i].0)
  }

  /** The position of the first entry with the given key, or -1. */
  function KeyIndex(t: IconTable, key: string): (r: int)
    ensures -1 <= r < |t|
    ensures r >= 0 ==> t[r].0 == key && forall j :: 0 <= j < r ==> t[j].0 != key
    ensures r == -1 ==> forall j :: 0 <= j < |t| ==> t[j].0 != key
  {
    if t == [] then -1
    else if t[0].0 == key then 0
    else
      var k := KeyIndex(t[1..], key);
      if k == -1 then -1 else k + 1
  }

  /** FILE_ICON_MAP[key] */
  function Lookup(t: IconTable, key: string): (r: Option<IconConfig>)
    ensures r.None? <==> forall i :: 0 <= i < |t| ==> t[i].0 != key
    ensures r.Some? ==> exists i :: 0 <= i < |t| && t[i] == (key, r.value)
  {
    var i := KeyIndex(t, key);
    if i < 0 then None else Some(t[i].1)
  }

  lemma {:induction false} KeyIndexSameKeys(r: IconTable, t: IconTable, k: string)
    requires Keys(r) == Keys(t)
    ensures KeyIndex(r, k) == KeyIndex(t, k)
  {
    if t != [] {
      assert Keys(r[1..]) == Keys(t[1..]) by {
        assert Keys(r)[0] == r[0].0 && Keys(t)[0] == t[0].0;
      }
      KeyIndexSameKeys(r[1..], t[1..], k);
    }
  }

  /** The first entry answers a lookup of its key; any other key is looked up in the rest. */
  lemma LookupCons(t: IconTable, k: string)
    requires t != []
    ensures Lookup(t, k) == if t[0].0 == k then Some(t[0].1) else Lookup(t[1..], k)
  {
  }

  /** Inserting an entry for a key the table lacks, at any position, adds that lookup and changes no other. */
  lemma {:induction false} LookupInsert(t: IconTable, p: nat, e: (string, IconConfig), k: string)
    requires p <= |t| && forall j :: 0 <= j < |t| ==> t[j].0 != e.0
    ensures Lookup(t[..p] + [e] + t[p..], k) == if k == e.0 then Some(e.1) else Lookup(t, k)
    decreases p
  {
    var r := t[..p] + [e] + t[p..];
    if p == 0 {
      assert r == [e] + t && r[1..] == t;
      LookupCons(r, k);
    } else {
      assert r[0] == t[0];
      assert r[1..] == t[1..][..p - 1] + [e] + t[1..][p - 1..];
      LookupInsert(t[1..], p - 1, e, k);
      LookupCons(r, k);
      LookupCons(t, k);
    }
  }

  /**
   * An array-index property name: canonical decimal digits below 2^32 - 1.
   * An object's own property names are listed with these first, in
   * ascending numeric order, and every other name after them in the order
   * it was added.
   */
  predicate IsArrayIndex(k: string) {
    IsIndexKey(k) && DigitsValue(k) < 0xFFFF_FFFF
  }

  /** The table is in property order: an array-index name is preceded only by smaller array-index names. */
  predicate PropertyOrdered(t: IconTable) {
    forall i, j :: 0 <= i < j < |t| && IsArrayIndex(t[j].0) ==>
      IsArrayIndex(t[i].0) && DigitsValue(t[i].0) < DigitsValue(t[j].0)
  }

  /** How many leading entries are array-index names below v. */
  function LeadingIndicesBelow(t: IconTable, v: nat): (r: nat)
    ensures r <= |t|
    ensures forall j :: 0 <= j < r ==> IsArrayIndex(t[j].0) && DigitsValue(t[j].0) < v
    ensures r < |t| ==> !(IsArrayIndex(t[r].0) && DigitsValue(t[r].0) < v)
  {
    if t != [] && IsArrayIndex(t[0].0) && DigitsValue(t[0].0) < v then 1 + LeadingIndicesBelow(t[1..], v) else 0
  }

  /** Where a new property name goes: after the smaller array-index names when it is one, otherwise last. */
  function InsertionPoint(t: IconTable, key: string): (r: nat)
    ensures r <= |t|
    ensures !IsArrayIndex(key) ==> r == |t|
  {
    if IsArrayIndex(key) then LeadingIndicesBelow(t, DigitsValue(key)) else |t|
  }

  /** Inserting a new name at its insertion point keeps the table in property order. */
  lemma InsertOrdered(t: IconTable, e: (string, IconConfig))
    requires forall j :: 0 <= j < |t| ==> t[j].0 != e.0
    ensures PropertyOrdered(t) ==> PropertyOrdered(t[..InsertionPoint(t, e.0)] + [e] + t[InsertionPoint(t, e.0)..])
  {
    if !PropertyOrdered(t) {
      return;
    }
    var p := InsertionPoint(t, e.0);
    var r := t[..p] + [e] + t[p..];
    assert forall x :: 0 <= x < p ==> r[x] == t[x];
    assert r[p] == e;
    assert forall x :: p < x < |r| ==> r[x] == t[x - 1];
    forall i, j | 0 <= i < j < |r| && IsArrayIndex(r[j].0)
      ensures IsArrayIndex(r[i].0) && DigitsValue(r[i].0) < DigitsValue(r[j].0)
    {
      if j == p {
        assert IsArrayIndex(e.0);
      } else if i == p {
        assert p < |t| && IsArrayIndex(e.0);
        var v := DigitsValue(e.0);
        assert !(IsArrayIndex(t[p].0) && DigitsValue(t[p].0) < v);
        if j - 1 == p {
          assert DigitsValue(t[p].0) != v by {
            if DigitsValue(t[p].0) == v {
              IndexKeyInjective(t[p].0, e.0);
            }
          }
        } else {
          assert IsArrayIndex(t[p].0) && DigitsValue(t[p].0) < DigitsValue(t[j - 1].0);
          assert DigitsValue(t[p].0) != v by {
            if DigitsValue(t[p].0) == v {
              IndexKeyInjective(t[p].0, e.0);
            }
          }
        }
      }
    }
  }

  lemma KeysInsert(t: IconTable, p: nat, e: (string, IconConfig))
    requires p <= |t|
    ensures Keys(t[..p] + [e] + t[p..]) == Keys(t)[..p] + [e.0] + Keys(t)[p..]
  {
    var r := t[..p] + [e] + t[p..];
    var kt := Keys(t);
    var ks := kt[..p] + [e.0] + kt[p..];
    forall x | 0 <= x < |ks| ensures Keys(r)[x] == ks[x] {
      if x < p {
        assert r[x] == t[x] && ks[x] == kt[x];
      } else if x == p {
        assert r[x] == e && ks[x] == e.0;
      } else {
        assert r[x] == t[x - 1] && ks[x] == kt[x - 1];
      }
    }
  }

  /** Inserting an entry for a key the table lacks adds that key at the position and changes no other lookup. */
  lemma SetNewKey(t: IconTable, p: nat, key: string, value: IconConfig)
    requires p <= |t| && KeyIndex(t, key) < 0
    ensures Lookup(t[..p] + [(key, value)] + t[p..], key) == Some(value)
    ensures forall k :: k != key ==> Lookup(t[..p] + [(key, value)] + t[p..], k) == Lookup(t, k)
    ensures Keys(t[..p] + [(key, value)] + t[p..]) == Keys(t)[..p] + [key] + Keys(t)[p..]
  {
    var r := t[..p] + [(key, value)] + t[p..];
    LookupInsert(t, p, (key, value), key);
    forall k | k != key
      ensures Lookup(r, k) == Lookup(t, k)
    {
      LookupInsert(t, p, (key, value), k);
    }
    KeysInsert(t, p, (key, value));
  }

  /** Overwriting the entry of a key the table has keeps every key in place and changes only that lookup. */
  lemma SetExistingKey(t: IconTable, key: string, value: IconConfig)
    requires 0 <= KeyIndex(t, key)
    ensures Lookup(t[KeyIndex(t, key) := (key, value)], key) == Some(value)
    ensures forall k :: k != key ==> Lookup(t[KeyIndex(t, key) := (key, value)], k) == Lookup(t, k)
    ensures Keys(t[KeyIndex(t, key) := (key, value)]) == Keys(t)
  {
    var r := t[KeyIndex(t, key) := (key, value)];
    assert Keys(r) == Keys(t);
    forall k
      ensures KeyIndex(r, k) == KeyIndex(t, k)
    {
      KeyIndexSameKeys(r, t, k);
    }
  }

  /**
   * FILE_ICON_MAP[key] = value: an existing key keeps its position; a new
   * key goes last, unless it is an array-index name, which goes after the
   * smaller array-index names; property order is kept.
   */
  function SetEntry(t: IconTable, key: string, value: IconConfig): (r: IconTable)
    ensures Lookup(r, key) == Some(value)
    ensures forall k :: k != key ==> Lookup(r, k) == Lookup(t, k)
    ensures Lookup(t, key).Some? ==> Keys(r) == Keys(t)
    ensures Lookup(t, key).None? ==>
      Keys(r) == Keys(t)[..InsertionPoint(t, key)] + [key] + Keys(t)[InsertionPoint(t, key)..]
    ensures Lookup(t, key).None? && !IsArrayIndex(key) ==> Keys(r) == Keys(t) + [key]
    ensures PropertyOrdered(t) ==> PropertyOrdered(r)
  {
    var i := KeyIndex(t, key);
    if i < 0 then
      var p := InsertionPoint(t, key);
      SetNewKey(t, p, key, value);
      InsertOrdered(t, (key, value));
      assert !IsArrayIndex(key) ==> Keys(t)[..p] + [key] + Keys(t)[p..] == Keys(t) + [key];
      t[..p] + [(key, value)] + t[p..]
    else
      SetExistingKey(t, key, value);
      t[i := (key, value)]
  }

  /** extensionCache.set(ext.toLowerCase(), type) for every extension of one type, in order. */
  function AddExtensions(m: map<string, string>, iconType: string, exts: seq<string>): (r: map<string, string>)
    decreases |exts|
  {
    if exts == [] then m else AddExtensions(m, iconType, exts[..|exts| - 1])[ToLower(exts[|exts| - 1]) := iconType]
  }

  function ExtensionsOf(c: IconConfig): seq<string> {
    c.extensions.GetOr([])
  }

  /** The map buildExtensionCache builds from a table. */
  function ExtensionCache(t: IconTable): map<string, string>
    decreases |t|
  {
    if t == [] then map[] else AddExtensions(ExtensionCache(t[..|t| - 1]), t[|t| - 1].0, ExtensionsOf(t[|t| - 1].1))
  }

  predicate Lists(c: IconConfig, ext: string) {
    exists j :: 0 <= j < |ExtensionsOf(c)| && ToLower(ExtensionsOf(c)[j]) == ext
  }

  lemma {:induction false} AddExtensionsLookup(m: map<string, string>, iconType: string, exts: seq<string>, ext: string)
    ensures var r := AddExtensions(m, iconType, exts);
      (exists j :: 0 <= j < |exts| && ToLower(exts[j]) == ext) ==> ext in r && r[ext] == iconType
    ensures var r := AddExtensions(m, iconType, exts);
      (forall j :: 0 <= j < |exts| ==> ToLower(exts[j]) != ext) ==> (ext in r <==> ext in m) && (ext in m ==> r[ext] == m[ext])
    decreases |exts|
  {
    if exts != [] {
      var init := exts[..|exts| - 1];
      AddExtensionsLookup(m, iconType, init, ext);
      if exists j :: 0 <= j < |exts| && ToLower(exts[j]) == ext {
        var j :| 0 <= j < |exts| && ToLower(exts[j]) == ext;
        if j < |exts| - 1 {
          assert init[j] == exts[j];
        }
      }
    }
  }

  /**
   * The cache maps an extension to the LAST type in table order that lists
   * it (in any letter case), and holds no other extensions.
   */
  lemma {:induction false} ExtensionCacheLastWins(t: IconTable, ext: string, i: nat)
    requires i < |t| && Lists(t[i].1, ext)
    requires forall k :: i < k < |t| ==> !Lists(t[k].1, ext)
    ensures ext in ExtensionCache(t) && ExtensionCache(t)[ext] == t[i].0
    decreases |t|
  {
    var last := t[|t| - 1];
    AddExtensionsLookup(ExtensionCache(t[..|t| - 1]), last.0, ExtensionsOf(last.1), ext);
    if i < |t| - 1 {
      ExtensionCacheLastWins(t[..|t| - 1], ext, i);
    }
  }

  lemma {:induction false} ExtensionCacheUnlisted(t: IconTable, ext: string)
    requires forall k :: 0 <= k < |t| ==> !Lists(t[k].1, ext)
    ensures ext !in ExtensionCache(t)
    decreases |t|
  {
    if t != [] {
      var last := t[|t| - 1];
      ExtensionCacheUnlisted(t[..|t| - 1], ext);
      AddExtensionsLookup(ExtensionCache(t[..|t| - 1]), last.0, ExtensionsOf(last.1), ext);
    }
  }

  /** getFileExtension: from the last dot, lower-cased; "" when there is no dot or the dot ends the name. */
  function IconExtension(filename: string): (r: string)
    ensures r == [] <==> '.' !in filename || filename[|filename| - 1] == '.'
    ensures r != [] ==> |r| >= 2 && r[0] == '.' && EndsWith(r, ToLower(r[1..]))
    ensures r != [] ==> r == ToLower(filename[LastIndexOfChar(filename, '.')..])
  {
    var i := LastIndexOfChar(filename, '.');
    if i == -1 || i == |filename| - 1 then ""
    else
      var r := ToLower(filename[i..]);
      assert EndsWith(r, ToLower(r[1..])) by {
        assert r[|r| - |r[1..]|..] == r[1..];
        assert forall k :: 0 <= k < |r| ==> LowerChar(r[k]) == r[k];
      }
      r
  }

  /** A name ending in a dot and a non-empty, dot-free suffix has that suffix, lower-cased, as its extension. */
  lemma IconExtensionOfSuffix(base: string, suffix: string)
    requires suffix != [] && '.' !in suffix
    ensures IconExtension(base + "." + suffix) == ToLower("." + suffix)
  {
    var name := base + "." + suffix;
    assert name[|base|] == '.';
    assert forall j :: |base| < j < |name| ==> name[j] == suffix[j - |base| - 1];
    assert LastIndexOfChar(name, '.') == |base|;
    assert name[|base|..] == "." + suffix;
  }

  /** The file name getFileIconInfo reads from its argument: the string itself, or the object's name. */
  function FileNameOf(q: IconQuery): string {
    match q
    case Text(s) => s
    case Entry(_, name, _) => name
    case Absent => ""
  }

  predicate NamesDirectory(q: IconQuery) {
    q == Text("directory") || (q.Entry? && (q.kind == "directory" || q.isDirectory))
  }

  /** The type name getFileIconInfo settles on, given the table and the cache built from it. */
  function IconTypeFor(t: IconTable, q: IconQuery): (r: string)
    ensures NamesDirectory(q) ==> r == "directory"
    ensures r != "directory" && r != "default" ==>
      exists i :: 0 <= i < |t| && t[i].0 == r && Lists(t[i].1, IconExtension(FileNameOf(q)))
    ensures !NamesDirectory(q) && IconExtension(FileNameOf(q)) == "" ==> r == "default"
    ensures !NamesDirectory(q) && IconExtension(FileNameOf(q)) != "" ==>
      var ext := IconExtension(FileNameOf(q));
      var cache := ExtensionCache(t);
      if ext in cache && cache[ext] != "" && Lookup(t, cache[ext]).Some? then r == cache[ext] else r == "default"
  {
    if NamesDirectory(q) then "directory"
    else
      var filename := FileNameOf(q);
      if filename == "" then "default"
      else
        var ext := IconExtension(filename);
        var cache := ExtensionCache(t);
        if ext == "" then "default"
        else if ext in cache && cache[ext] != "" && Lookup(t, cache[ext]).Some? then
          CacheEntryListed(t, ext);
          cache[ext]
        else "default"
  }

  lemma {:induction false} CacheEntryListed(t: IconTable, ext: string)
    requires ext in ExtensionCache(t)
    ensures exists i :: 0 <= i < |t| && t[i].0 == ExtensionCache(t)[ext] && Lists(t[i].1, ext)
    decreases |t|
  {
    var last := t[|t| - 1];
    var init := t[..|t| - 1];
    AddExtensionsLookup(ExtensionCache(init), last.0, ExtensionsOf(last.1), ext);
    if !Lists(last.1, ext) {
      CacheEntryListed(init, ext);
      var i :| 0 <= i < |init| && init[i].0 == ExtensionCache(init)[ext] && Lists(init[i].1, ext);
      assert t[i] == init[i];
    }
  }

  /** No extension of the types after "pdf" in the default table lower-cases to ".pdf". */
  lemma PdfNotListedLater()
    ensures forall k :: 10 < k < |DefaultIconTable| ==> !Lists(DefaultIconTable[k].1, ".pdf")
  {
    forall k, j | 10 < k < |DefaultIconTable| && 0 <= j < |ExtensionsOf(DefaultIconTable[k].1)|
      ensures ToLower(ExtensionsOf(DefaultIconTable[k].1)[j]) != ".pdf"
    {
      var e := ExtensionsOf(DefaultIconTable[k].1)[j];
      assert e != [] && e[0] == '.' && (|e| != 4 || e[1] != 'p' || e[2] != 'd');
    }
  }

  /** In the default table ".pdf" gets the dedicated pdf icon, although the document type lists it too. */
  lemma PdfOverridesDocument()
    ensures ".pdf" in ExtensionCache(DefaultIconTable) && ExtensionCache(DefaultIconTable)[".pdf"] == "pdf"
  {
    assert Lists(DefaultIconTable[4].1, ".pdf") by {
      assert ExtensionsOf(DefaultIconTable[4].1)[2] == ".pdf";
    }
    assert Lists(DefaultIconTable[10].1, ".pdf") by {
      assert ExtensionsOf(DefaultIconTable[10].1)[0] == ".pdf";
    }
    PdfNotListedLater();
    ExtensionCacheLastWins(DefaultIconTable, ".pdf", 10);
  }

  /** Under the default table, any file named `<base>.pdf` gets the pdf icon. */
  lemma PdfFileIcon(base: string)
    ensures IconTypeFor(DefaultIconTable, Text(base + ".pdf")) == "pdf"
  {
    var name := base + ".pdf";
    var q := Text(name);
    assert !NamesDirectory(q) by {
      assert name[|name| - 1] == 'f';
    }
    assert IconExtension(FileNameOf(q)) == ".pdf" by {
      IconExtensionOfSuffix(base, "pdf");
      assert ToLower(".pdf") == ".pdf";
      assert base + "." + "pdf" == name;
    }
    assert ".pdf" in ExtensionCache(DefaultIconTable) && ExtensionCache(DefaultIconTable)[".pdf"] == "pdf" by {
      PdfOverridesDocument();
    }
    assert Lookup(DefaultIconTable, "pdf").Some? by {
      PdfOverridesDocument();
      CacheEntryListed(DefaultIconTable, ".pdf");
    }
  }

  /** The configurations addIconType takes: a type name and a config with an icon and a colour. */
  predicate Acceptable(iconType: string, config: Option<IconConfig>) {
    iconType != "" && config.Some? && config.value.icon != "" && config.value.color != ""
  }

  /** The table after addIconType for each entry in turn: the acceptable ones are set, the others ignored. */
  function AddedAll(t: IconTable, types: seq<(string, Option<IconConfig>)>): IconTable
    decreases |types|
  {
    if types == [] then t
    else
      var r := AddedAll(t, types[..|types| - 1]);
      var (iconType, config) := types[|types| - 1];
      if Acceptable(iconType, config) then SetEntry(r, iconType, config.value) else r
  }

  /** Some entry is one addIconType accepts. */
  predicate AnyAcceptable(types: seq<(string, Option<IconConfig>)>)
    decreases |types|
  {
    types != [] && (AnyAcceptable(types[..|types| - 1]) || Acceptable(types[|types| - 1].0, types[|types| - 1].1))
  }

  lemma {:induction false} AnyAcceptableMeaning(types: seq<(string, Option<IconConfig>)>)
    ensures AnyAcceptable(types) <==> exists k :: 0 <= k < |types| && Acceptable(types[k].0, types[k].1)
    decreases |types|
  {
    if types != [] {
      var init := types[..|types| - 1];
      AnyAcceptableMeaning(init);
      if AnyAcceptable(init) {
        var k :| 0 <= k < |init| && Acceptable(init[k].0, init[k].1);
        assert types[k] == init[k];
      }
      if exists k :: 0 <= k < |types| && Acceptable(types[k].0, types[k].1) {
        var k :| 0 <= k < |types| && Acceptable(types[k].0, types[k].1);
        if k < |init| {
          assert init[k] == types[k];
        }
      }
    }
  }

  /** One more entry in the prefix is one more addIconType step. */
  lemma AddedAllSnoc(t: IconTable, types: seq<(string, Option<IconConfig>)>, i: nat)
    requires i < |types|
    ensures AddedAll(t, types[..i + 1]) ==
      if Acceptable(types[i].0, types[i].1) then SetEntry(AddedAll(t, types[..i]), types[i].0, types[i].1.value)
      else AddedAll(t, types[..i])
    ensures AnyAcceptable(types[..i + 1]) == (AnyAcceptable(types[..i]) || Acceptable(types[i].0, types[i].1))
  {
    assert types[..i + 1][..i] == types[..i];
  }

  /** Adding types only ever sets entries: every type of the old table is still there. */
  lemma {:induction false} AddedAllKeeps(t: IconTable, types: seq<(string, Option<IconConfig>)>, key: string)
    requires Lookup(t, key).Some?
    ensures Lookup(AddedAll(t, types), key).Some?
    decreases |types|
  {
    if types != [] {
      AddedAllKeeps(t, types[..|types| - 1], key);
    }
  }

  class IconRegistry {
    var table: IconTable
    var cache: Option<map<string, string>>

    /** The directory and default types are always present, the table is in property order, and a cache is never stale. */
    ghost predicate Valid()
      reads this
    {
      Lookup(table, "directory").Some? && Lookup(table, "default").Some? && PropertyOrdered(table)
      && (cache.Some? ==> cache.value == ExtensionCache(table))
    }

    constructor ()
      ensures Valid() && table == DefaultIconTable && cache == None
    {
      table := DefaultIconTable;
      cache := None;
      assert DefaultIconTable[0].0 == "directory";
      assert DefaultIconTable[16].0 == "default";
      assert PropertyOrdered(DefaultIconTable) by {
        forall j | 0 <= j < |DefaultIconTable|
          ensures !IsArrayIndex(DefaultIconTable[j].0)
        {
          assert !IsDigit(DefaultIconTable[j].0[0]);
        }
      }
    }

    /** buildExtensionCache: returns the cache, building it first when there is none. */
    method BuildExtensionCache() returns (m: map<string, string>)
      requires Valid()
      modifies this
      ensures Valid() && table == old(table)
      ensures m == ExtensionCache(table) && cache == Some(m)
    {
      if cache.Some? {
        return cache.value;
      }
      m := map[];
      var i := 0;
      while i < |table|
        invariant 0 <= i <= |table|
        invariant m == ExtensionCache(table[..i])
      {
        var exts := ExtensionsOf(table[i].1);
        var j := 0;
        while j < |exts|
          invariant 0 <= j <= |exts|
          invariant m == AddExtensions(ExtensionCache(table[..i]), table[i].0, exts[..j])
        {
          assert exts[..j + 1][..j] == exts[..j];
          m := m[ToLower(exts[j]) := table[i].0];
          j := j + 1;
        }
        assert exts[..j] == exts;
        assert table[..i + 1][..i] == table[..i];
        i := i + 1;
      }
      assert table[..i] == table;
      cache := Some(m);
    }

    /** getFileIconInfo */
    method GetFileIconInfo(q: IconQuery) returns (r: IconInfo)
      requires Valid()
      modifies this
      ensures Valid() && table == old(table)
      ensures r.iconType == IconTypeFor(table, q)
      ensures Lookup(table, r.iconType) == Some(r.config)
      ensures !NamesDirectory(q) && IconExtension(FileNameOf(q)) != "" ==> cache == Some(ExtensionCache(table))
      ensures NamesDirectory(q) || IconExtension(FileNameOf(q)) == "" ==> cache == old(cache)
    {
      var t := IconTypeFor(table, q);
      if !NamesDirectory(q) && IconExtension(FileNameOf(q)) != "" {
        var c := BuildExtensionCache();
      }
      r := IconInfo(Lookup(table, t).value, t);
    }

    /** addIconType: ignores a configuration without a type, icon or colour; otherwise sets it and drops the cache. */
    method AddIconType(iconType: string, config: Option<IconConfig>) returns (added: bool)
      requires Valid()
      modifies this
      ensures Valid()
      ensures added <==> Acceptable(iconType, config)
      ensures added ==> table == SetEntry(old(table), iconType, config.value) && cache == None
      ensures !added ==> table == old(table) && cache == old(cache)
    {
      if iconType == "" || config.None? || config.value.icon == "" || config.value.color == "" {
        return false;
      }
      table := SetEntry(table, iconType, config.value);
      cache := None;
      return true;
    }

    /** addIconTypes: addIconType for each entry, in order. */
    method AddIconTypes(types: seq<(string, Option<IconConfig>)>)
      requires Valid()
      modifies this
      ensures Valid()
      ensures table == AddedAll(old(table), types)
      ensures cache == if exists k :: 0 <= k < |types| && Acceptable(types[k].0, types[k].1) then None else old(cache)
    {
      var i := 0;
      while i < |types|
        invariant 0 <= i <= |types|
        invariant Valid()
        invariant table == AddedAll(old(table), types[..i])
        invariant cache == if AnyAcceptable(types[..i]) then None else old(cache)
      {
        AddedAllSnoc(old(table), types, i);
        var _ := AddIconType(types[i].0, types[i].1);
        i := i + 1;
      }
      assert types[..i] == types;
      AnyAcceptableMeaning(types);
    }
  }
}
