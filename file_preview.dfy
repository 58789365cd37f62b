/**
 * The file explorer's preview check: which entries can be previewed, by
 * extension category and size limit.
 * Source: desktop/src/hooks/useExplorer/modules/useFilePreview.js
 */
module FilePreview {
  import opened Wrappers
  import opened Strings
  import opened JsValues
  import opened FileEntries

  /** One entry of PREVIEW_SUPPORT: a category name, its extensions and its size limit in bytes. */
  datatype Category = Category(name: string, extensions: seq<string>, maxSize: nat)

  const MiB: nat := 1024 * 1024

  /** PREVIEW_SUPPORT, in its declaration order (Object.entries order). */
  const PreviewSupport: seq<Category> := [
    Category("text", [".txt", ".md", ".log", ".json", ".xml", ".yml", ".yaml", ".ini", ".conf", ".cfg"], 10 * MiB),
    Category("image", [".jpg", ".jpeg", ".png", ".gif", ".bmp", ".webp", ".svg", ".ico"], 50 * MiB),
    Category("video", [".mp4", ".avi", ".mkv", ".mov", ".wmv", ".flv", ".webm"], 500 * MiB),
    Category("audio", [".mp3", ".wav", ".flac", ".aac", ".ogg", ".wma", ".m4a"], 100 * MiB),
    Category("document", [".pdf", ".doc", ".docx", ".xls", ".xlsx", ".ppt", ".pptx"], 100 * MiB),
    Category("code", [".js", ".ts", ".py", ".java", ".c", ".cpp", ".h", ".go", ".rs", ".vue", ".jsx", ".tsx", ".html", ".css", ".scss"], 10 * MiB)
  ]

  /** getFileExtension: from the last dot to the end, lower-cased; "" when there is no dot. */
  function FileExtension(filename: string): (r: string)
    ensures r == [] <==> '.' !in filename
    ensures r != [] ==> r[0] == '.' && '.' !in r[1..]
    ensures |r| <= |filename|
    ensures r != [] ==> r == ToLower(filename[|filename| - |r|..])
  {
    var i := LastIndexOfChar(filename, '.');
    if i == -1 then ""
    else
      var r := ToLower(filename[i..]);
      assert forall k :: 0 <= k < |r| - 1 ==> r[1..][k] == LowerChar(filename[i + 1 + k]);
      r
  }

  /** A name ending in a dot and a dot-free suffix has that suffix, lower-cased, as its extension. */
  lemma FileExtensionOfSuffix(base: string, suffix: string)
    requires '.' !in suffix
    ensures FileExtension(base + "." + suffix) == ToLower("." + suffix)
  {
    var name := base + "." + suffix;
    assert name[|base|] == '.';
    assert forall j :: |base| < j < |name| ==> name[j] == suffix[j - |base| - 1];
    assert LastIndexOfChar(name, '.') == |base|;
    assert name[|base|..] == "." + suffix;
  }

  /** Math.round(maxSize / 1024 / 1024) */
  function MegaBytes(maxSize: nat): nat {
    (2 * maxSize + MiB) / (2 * MiB)
  }

  function TooLargeReason(maxSize: nat): string {
    "File too large (max " + NatToString(MegaBytes(maxSize)) + "MB)"
  }

  /** The index of the first category listing ext, searching from index i. */
  function FirstCategoryFrom(ext: string, i: nat): (r: Option<nat>)
    requires i <= |PreviewSupport|
    ensures r.Some? ==> i <= r.value < |PreviewSupport| && ext in PreviewSupport[r.value].extensions
    ensures r.Some? ==> forall j :: i <= j < r.value ==> ext !in PreviewSupport[j].extensions
    ensures r.None? ==> forall j :: i <= j < |PreviewSupport| ==> ext !in PreviewSupport[j].extensions
    decreases |PreviewSupport| - i
  {
    if i == |PreviewSupport| then None
    else if ext in PreviewSupport[i].extensions then Some(i)
    else FirstCategoryFrom(ext, i + 1)
  }

  /** The outcome of checkPreviewSupport. */
  datatype Support = Support(supported: bool, category: Option<string>, reason: Option<string>)

  /** How an entry classifies before its size is looked at. */
  datatype Classification = IsDirectory | NoExtension | UnknownType | KnownType(index: nat)

  function Classify(file: FileEntry): (r: Classification)
    ensures r.KnownType? ==> r.index < |PreviewSupport|
  {
    if file.kind == "directory" then IsDirectory
    else
      var ext := FileExtension(file.name);
      if ext == [] then NoExtension
      else match FirstCategoryFrom(ext, 0)
        case None => UnknownType
        case Some(i) => KnownType(i)
  }

  function Decide(c: Classification, tooLarge: bool): (r: Support)
    requires c.KnownType? ==> c.index < |PreviewSupport|
  {
    match c
    case IsDirectory => Support(false, None, Some("Cannot preview directories"))
    case NoExtension => Support(false, None, Some("Unknown file type"))
    case UnknownType => Support(true, Some("unknown"), None)
    case KnownType(i) =>
      if tooLarge then Support(false, Some(PreviewSupport[i].name), Some(TooLargeReason(PreviewSupport[i].maxSize)))
      else Support(true, Some(PreviewSupport[i].name), None)
  }

  /** `file.size && file.size > config.maxSize`, the source's size test for category i. */
  predicate TooLargeAsWritten(file: FileEntry, i: nat)
    requires i < |PreviewSupport|
  {
    Truthy(file.size) && GreaterThan(file.size, PreviewSupport[i].maxSize)
  }

  /**
   * checkPreviewSupport as written: the size test reads file.size, which the
   * directory listing fills with formatted text such as "600 MiB"; comparing
   * that text with a byte count is always false.
   */
  function CheckPreviewSupportAsWritten(file: FileEntry): (r: Support)
    ensures file.kind == "directory" ==> !r.supported && r.reason == Some("Cannot preview directories")
    ensures r.supported ==> file.kind != "directory" && FileExtension(file.name) != []
    ensures r.supported && r.category != Some("unknown") ==>
      exists i :: 0 <= i < |PreviewSupport| && r.category == Some(PreviewSupport[i].name)
        && FileExtension(file.name) in PreviewSupport[i].extensions && !TooLargeAsWritten(file, i)
    ensures r.category == Some("unknown") ==>
      r.supported && forall i :: 0 <= i < |PreviewSupport| ==> FileExtension(file.name) !in PreviewSupport[i].extensions
    ensures !r.supported && file.kind != "directory" && FileExtension(file.name) != [] ==>
      exists i :: 0 <= i < |PreviewSupport| && FileExtension(file.name) in PreviewSupport[i].extensions
        && TooLargeAsWritten(file, i)
  {
    var c := Classify(file);
    var tooLarge := c.KnownType? && TooLargeAsWritten(file, c.index);
    ClassifyMeaning(file);
    CategoryNamesKnown();
    var r := Decide(c, tooLarge);
    assert c.KnownType? ==> r.category == Some(PreviewSupport[c.index].name) && (r.supported <==> !tooLarge);
    assert !c.KnownType? ==> r == Decide(c, false);
    r
  }

  /** The intended checkPreviewSupport, with the size test on the byte count (rawSize). */
  function PreviewVerdict(file: FileEntry): (r: Support)
    ensures file.kind == "directory" ==> !r.supported && r.reason == Some("Cannot preview directories")
    ensures r.supported ==> file.kind != "directory" && FileExtension(file.name) != []
    ensures r.supported && r.category != Some("unknown") ==>
      exists i :: 0 <= i < |PreviewSupport| && r.category == Some(PreviewSupport[i].name)
        && FileExtension(file.name) in PreviewSupport[i].extensions && file.rawSize <= PreviewSupport[i].maxSize
    ensures r.category == Some("unknown") ==>
      r.supported && forall i :: 0 <= i < |PreviewSupport| ==> FileExtension(file.name) !in PreviewSupport[i].extensions
    ensures !r.supported && file.kind != "directory" && FileExtension(file.name) != [] ==>
      exists i :: 0 <= i < |PreviewSupport| && FileExtension(file.name) in PreviewSupport[i].extensions
        && file.rawSize > PreviewSupport[i].maxSize
  {
    var c := Classify(file);
    var tooLarge := c.KnownType? && file.rawSize > 0 && file.rawSize > PreviewSupport[c.index].maxSize;
    ClassifyMeaning(file);
    CategoryNamesKnown();
    var r := Decide(c, tooLarge);
    assert c.KnownType? ==> r.category == Some(PreviewSupport[c.index].name) && (r.supported <==> !tooLarge);
    assert !c.KnownType? ==> r == Decide(c, false);
    r
  }

  /** What each classification says about the entry's kind and extension. */
  lemma ClassifyMeaning(file: FileEntry)
    ensures Classify(file).IsDirectory? <==> file.kind == "directory"
    ensures Classify(file).NoExtension? <==> file.kind != "directory" && FileExtension(file.name) == []
    ensures Classify(file).UnknownType? ==>
      file.kind != "directory" && FileExtension(file.name) != []
      && forall i :: 0 <= i < |PreviewSupport| ==> FileExtension(file.name) !in PreviewSupport[i].extensions
    ensures Classify(file).KnownType? ==>
      file.kind != "directory" && FileExtension(file.name) != []
      && FileExtension(file.name) in PreviewSupport[Classify(file).index].extensions
  {
  }

  /** No category of the table is named "unknown", the name the check reports for unlisted extensions. */
  lemma CategoryNamesKnown()
    ensures forall i :: 0 <= i < |PreviewSupport| ==> PreviewSupport[i].name != "unknown"
  {
    forall i | 0 <= i < |PreviewSupport| ensures PreviewSupport[i].name != "unknown" {
      assert PreviewSupport[i].name[0] != 'u';
    }
  }

  /** checkPreviewSupport, searching the categories in order as the source's for-of loop does. */
  method CheckPreviewSupport(file: FileEntry) returns (r: Support)
    ensures r == CheckPreviewSupportAsWritten(file)
  {
    if file.kind == "directory" {
      return Support(false, None, Some("Cannot preview directories"));
    }
    var ext := FileExtension(file.name);
    if ext == [] {
      return Support(false, None, Some("Unknown file type"));
    }
    var i := 0;
    while i < |PreviewSupport|
      invariant 0 <= i <= |PreviewSupport|
      invariant FirstCategoryFrom(ext, i) == FirstCategoryFrom(ext, 0)
    {
      var config := PreviewSupport[i];
      if ext in config.extensions {
        assert Classify(file) == KnownType(i);
        if Truthy(file.size) && GreaterThan(file.size, config.maxSize) {
          return Support(false, Some(config.name), Some(TooLargeReason(config.maxSize)));
        }
        return Support(true, Some(config.name), None);
      }
      i := i + 1;
    }
    assert Classify(file) == UnknownType;
    return Support(true, Some("unknown"), None);
  }

  lemma MovieExtension()
    ensures FileExtension("movie.mp4") == ".mp4"
  {
    FileExtensionOfSuffix("movie", "mp4");
    MovieName();
    Mp4Lower();
  }

  lemma MovieName()
    ensures "movie" + "." + "mp4" == "movie.mp4" && "." + "mp4" == ".mp4"
  {
  }

  lemma Mp4Lower()
    ensures ToLower(".mp4") == ".mp4"
  {
  }

  lemma SizeTextIsNaN()
    ensures StrToNumber("600 MiB") == NaN
  {
    SizeTextTrimmed();
    SizeTextNotDigits();
    SizeTextIsNotInfinity("600 MiB");
  }

  lemma SizeTextTrimmed()
    ensures Trim("600 MiB") == "600 MiB"
  {
    TrimUnchanged("600 MiB");
  }

  lemma SizeTextNotDigits()
    ensures !AllDigits("600 MiB")
  {
    assert !IsDigit("600 MiB"[3]);
  }

  lemma SizeTextIsNotInfinity(t: string)
    requires t == "600 MiB"
    ensures t != "Infinity" && t != "+Infinity" && t != "-Infinity" && t[0] == '6'
  {
  }

  lemma Mp4IsVideo()
    ensures FirstCategoryFrom(".mp4", 0) == Some(2)
  {
    assert ".mp4" in PreviewSupport[2].extensions;
    assert ".mp4" !in PreviewSupport[1].extensions;
    assert ".mp4" !in PreviewSupport[0].extensions;
  }

  /** Whatever its size, an entry whose size text is not a number passes the as-written size test. */
  lemma AsWrittenIgnoresTextSize(file: FileEntry)
    requires file.size.Str? && ToNumber(file.size) == NaN
    ensures CheckPreviewSupportAsWritten(file).supported <==> !Classify(file).IsDirectory? && !Classify(file).NoExtension?
  {
    var c := Classify(file);
    assert c.KnownType? ==> !GreaterThan(file.size, PreviewSupport[c.index].maxSize);
    assert CheckPreviewSupportAsWritten(file) == Decide(c, false);
  }

  /** The corrected test refuses a video over 500 MiB. */
  lemma LargeVideoRefused(file: FileEntry)
    requires Classify(file) == KnownType(2) && file.rawSize > 500 * MiB
    ensures PreviewVerdict(file) == Support(false, Some("video"), Some(TooLargeReason(500 * MiB)))
  {
  }

  /** A 600 MiB video listed with size "600 MiB": the source lets it through, the byte-count test refuses it. */
  lemma PreviewSizeCheckIgnored(file: FileEntry)
    requires file == FileEntry("/sdcard/movie.mp4", "movie.mp4", "file", Str("600 MiB"), 600 * MiB)
    ensures CheckPreviewSupportAsWritten(file).supported
    ensures PreviewVerdict(file) == Support(false, Some("video"), Some(TooLargeReason(500 * MiB)))
  {
    MovieExtension();
    Mp4IsVideo();
    assert Classify(file) == KnownType(2);
    SizeTextIsNaN();
    assert ToNumber(file.size) == StrToNumber("600 MiB");
    AsWrittenIgnoresTextSize(file);
    LargeVideoRefused(file);
  }
}
