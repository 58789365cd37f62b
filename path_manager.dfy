/**
 * The file explorer's path manager: path normalisation, parent/basename
 * helpers, and the navigation history (current path, history list, history
 * index) that navigateTo, goBack, goForward and reset update in place.
 * Source: desktop/src/hooks/useExplorer/modules/usePathManager.js
 */
module PathManager {
  import opened Strings

  predicate NoDoubleSlash(s: string) {
    forall i :: 0 <= i < |s| - 1 ==> !(s[i] == '/' && s[i + 1] == '/')
  }

  /** s.replace(/\/+/g, '/'): every run of slashes becomes one slash. */
  function CollapseSlashes(s: string): (r: string)
    ensures NoDoubleSlash(r)
    ensures |r| <= |s|
    ensures r == [] <==> s == []
    ensures s != [] ==> r[0] == s[0]
    ensures s != [] ==> r[|r| - 1] == s[|s| - 1]
    ensures NoDoubleSlash(s) ==> r == s
  {
    if |s| <= 1 then s
    else if s[0] == '/' && s[1] == '/' then CollapseSlashes(s[1..])
    else [s[0]] + CollapseSlashes(s[1..])
  }

  lemma NoDoubleSlashPrefix(s: string, k: nat)
    requires k <= |s| && NoDoubleSlash(s)
    ensures NoDoubleSlash(s[..k])
  {
  }

  function Prefixed(path: string): (r: string)
    ensures |r| >= 1 && r[0] == '/'
  {
    assert StartsWith(path, "/") ==> path[0] == path[..1][0];
    if StartsWith(path, "/") then path else "/" + path
  }

  /** normalizePath exactly as the source writes it: prefix, strip one trailing slash, then collapse runs. */
  function NormalizePathAsWritten(path: string): (r: string)
    ensures |r| >= 1 && r[0] == '/'
    ensures NoDoubleSlash(r)
  {
    var prefixed := Prefixed(path);
    var stripped := if |prefixed| > 1 && EndsWith(prefixed, "/") then prefixed[..|prefixed| - 1] else prefixed;
    CollapseSlashes(stripped)
  }

  /** Stripping the trailing slash before collapsing leaves one behind: "/a//" normalises to "/a/", which normalises again to "/a". */
  lemma NormalizePathAsWrittenNotIdempotent()
    ensures NormalizePathAsWritten("/a//") == "/a/"
    ensures NormalizePathAsWritten(NormalizePathAsWritten("/a//")) == "/a"
  {
    AsWrittenKeepsSlash();
    AsWrittenStripsSlash();
  }

  lemma AsWrittenKeepsSlash()
    ensures NormalizePathAsWritten("/a//") == "/a/"
  {
    assert Prefixed("/a//") == "/a//";
    assert "/a//"[..3] == "/a/";
    assert NoDoubleSlash("/a/");
  }

  lemma AsWrittenStripsSlash()
    ensures NormalizePathAsWritten("/a/") == "/a"
  {
    assert Prefixed("/a/") == "/a/";
    assert "/a/"[..2] == "/a";
    assert NoDoubleSlash("/a");
  }


  /**
   * normalizePath as its comments intend it: a leading slash, runs of slashes
   * collapsed, and no trailing slash unless the path is the root.
   */
  function NormalizePath(path: string): (r: string)
    ensures |r| >= 1 && r[0] == '/'
    ensures NoDoubleSlash(r)
    ensures |r| > 1 ==> r[|r| - 1] != '/'
  {
    var c := CollapseSlashes(Prefixed(path));
    if |c| > 1 && c[|c| - 1] == '/' then
      NoDoubleSlashPrefix(c, |c| - 1);
      c[..|c| - 1]
    else c
  }

  /** A normalised path normalises to itself. */
  lemma NormalizePathIdempotent(path: string)
    ensures NormalizePath(NormalizePath(path)) == NormalizePath(path)
  {
    var r := NormalizePath(path);
    assert Prefixed(r) == r;
  }

  /** joinPath(a, b): the parts joined by a slash and normalised as written. */
  function JoinPath(a: string, b: string): (r: string)
    ensures |r| >= 1 && r[0] == '/' && NoDoubleSlash(r)
  {
    NormalizePathAsWritten(a + "/" + b)
  }

  /** path.split('/').filter(Boolean) */
  function Segments(path: string): seq<string> {
    NonEmpty(Split(path, "/"))
  }

  /** getBasename: the last non-empty segment, or "" when there is none. */
  function Basename(path: string): string {
    var segs := Segments(path);
    if |segs| == 0 then "" else segs[|segs| - 1]
  }

  /** getDirname: "/" for zero or one segment, else "/" and all but the last segment. */
  function Dirname(path: string): (r: string)
    ensures |Segments(path)| <= 1 ==> r == "/"
  {
    var segs := Segments(path);
    if |segs| <= 1 then "/" else "/" + Join(segs[..|segs| - 1], "/")
  }

  /** The parentPath computed value for a current path. */
  function ParentPath(currentPath: string): (r: string)
    ensures currentPath == "/" || |Segments(currentPath)| <= 1 ==> r == "/"
  {
    if currentPath == "/" then "/" else Dirname(currentPath)
  }

  /** The pathSegments computed value. */
  function PathSegments(currentPath: string): seq<string> {
    if currentPath == "/" then ["/"] else Segments(currentPath)
  }

  /** The segments behind the breadcrumbs computed value (labels before preset lookup). */
  function BreadcrumbSegments(currentPath: string): (r: seq<string>)
    ensures |r| >= 1
  {
    var rest := if |currentPath| >= 1 then currentPath[1..] else "";
    if rest != [] then Split(rest, "/") else ["/"]
  }

  predicate ValidSegment(seg: string) {
    seg != [] && '/' !in seg
  }

  /** The canonical path whose segments are segs. */
  function PathOf(segs: seq<string>): string {
    if segs == [] then "/" else "/" + Join(segs, "/")
  }

  lemma NonEmptyAll(segs: seq<string>)
    requires forall k :: 0 <= k < |segs| ==> segs[k] != []
    ensures NonEmpty(segs) == segs
  {
  }

  /** The segments of the canonical path built from valid segments are those segments. */
  lemma SegmentsOfPathOf(segs: seq<string>)
    requires forall k :: 0 <= k < |segs| ==> ValidSegment(segs[k])
    ensures Segments(PathOf(segs)) == segs
  {
    if segs == [] {
      assert Split("/", "/") == ["", ""] by {
        assert IndexOf("/", "/") == 0;
        assert "/"[1..] == "";
      }
    } else {
      var j := Join(segs, "/");
      assert IndexOf("/" + j, "/") == 0;
      assert ("/" + j)[1..] == j;
      SplitJoin(segs, '/');
      assert Split("/" + j, "/") == [""] + segs;
      NonEmptyAll(segs);
    }
  }

  /** getBasename and getDirname split a child path back into its parent and its name. */
  lemma DirnameBasenameOfChild(segs: seq<string>, name: string)
    requires forall k :: 0 <= k < |segs| ==> ValidSegment(segs[k])
    requires ValidSegment(name)
    ensures Basename(PathOf(segs + [name])) == name
    ensures Dirname(PathOf(segs + [name])) == PathOf(segs)
  {
    SegmentsOfPathOf(segs + [name]);
    assert (segs + [name])[..|segs|] == segs;
  }

  /** Cuts a history list to its last historyLimit entries; a limit of 0 keeps everything, as slice(-0) does. */
  function CapHistory(h: seq<string>, historyLimit: nat): (r: seq<string>)
    ensures historyLimit > 0 ==> |r| <= historyLimit
    ensures |r| == if historyLimit > 0 && |h| > historyLimit then historyLimit else |h|
    ensures r == h[|h| - |r|..]
  {
    if historyLimit > 0 && |h| > historyLimit then h[|h| - historyLimit..] else h
  }

  /** Pushing onto the kept prefix of a history and capping it leaves the pushed path as the non-empty last entry. */
  lemma CapHistoryPush(h: seq<string>, index: nat, path: string, historyLimit: nat)
    requires index < |h|
    ensures var r := CapHistory(h[..index + 1] + [path], historyLimit);
      |r| >= 1 && r[|r| - 1] == path
  {
    var kept := h[..index + 1] + [path];
    var r := CapHistory(kept, historyLimit);
    assert r[|r| - 1] == kept[|kept| - 1];
  }

  /** The history after navigateTo moves to a new path with addToHistory: forward entries dropped, the path appended, the list capped. */
  function PushedHistory(h: seq<string>, index: nat, path: string, historyLimit: nat): (r: seq<string>)
    requires index < |h|
    ensures |r| >= 1 && r[|r| - 1] == path
    ensures historyLimit > 0 ==> |r| <= historyLimit
  {
    CapHistoryPush(h, index, path, historyLimit);
    CapHistory(h[..index + 1] + [path], historyLimit)
  }

  /** The path navigateByBreadcrumb moves to: the current path cut after the first occurrence of the value, with a leading slash. */
  function BreadcrumbCut(path: string, value: string): (r: string)
    requires IndexOf(path, value) >= 0
    ensures |r| >= 1 && r[0] == '/'
  {
    var newPath := path[..IndexOf(path, value) + |value|];
    Prefixed(newPath)
  }

  /** On a rooted path, a breadcrumb leads to a prefix of the current path that ends with the breadcrumb's value. */
  lemma BreadcrumbCutPrefix(path: string, value: string)
    requires |path| >= 1 && path[0] == '/' && value != [] && IndexOf(path, value) >= 0
    ensures var k := IndexOf(path, value) + |value|;
      BreadcrumbCut(path, value) == path[..k] && path[k - |value|..k] == value
  {
    var i := IndexOf(path, value);
    var k := i + |value|;
    assert OccursAt(path, value, i);
    var newPath := path[..k];
    assert newPath[..1] == "/";
  }

  class PathManager {
    const initialPath: string
    const historyLimit: nat
    var currentPath: string
    var history: seq<string>
    var historyIndex: nat

    ghost predicate Valid()
      reads this
    {
      historyIndex < |history| && (historyLimit > 0 ==> |history| <= historyLimit)
    }

    /** usePathManager({ initialPath, historyLimit }); the source defaults are "/sdcard" and 50. */
    constructor (initialPath: string, historyLimit: nat)
      ensures Valid()
      ensures this.initialPath == initialPath && this.historyLimit == historyLimit
      ensures currentPath == initialPath && history == [initialPath] && historyIndex == 0
    {
      this.initialPath := initialPath;
      this.historyLimit := historyLimit;
      currentPath := initialPath;
      history := [initialPath];
      historyIndex := 0;
    }

    predicate CanGoBack()
      reads this
    {
      historyIndex > 0
    }

    predicate CanGoForward()
      reads this
    {
      historyIndex < |history| - 1
    }

    predicate IsRoot()
      reads this
    {
      currentPath == "/"
    }

    /** navigateTo(path, { addToHistory }): normalise as written; a move to a new path may push it onto the history. */
    method NavigateTo(path: string, addToHistory: bool) returns (r: string)
      requires Valid()
      modifies this
      ensures Valid()
      ensures r == NormalizePathAsWritten(path)
      ensures r == old(currentPath) ==>
        currentPath == old(currentPath) && history == old(history) && historyIndex == old(historyIndex)
      ensures r != old(currentPath) ==> currentPath == r
      ensures r != old(currentPath) && addToHistory ==>
        history == PushedHistory(old(history), old(historyIndex), r, historyLimit)
        && historyIndex == |history| - 1 && history[historyIndex] == r
      ensures r != old(currentPath) && !addToHistory ==>
        history == old(history) && historyIndex == old(historyIndex)
    {
      r := NormalizePathAsWritten(path);
      if r == currentPath {
        return;
      }
      if addToHistory {
        PushHistory(r);
      }
      currentPath := r;
    }

    /** The history step of navigateTo: drop the forward entries, append the path and cap the list. */
    method PushHistory(path: string)
      requires Valid()
      modifies this
      ensures Valid()
      ensures history == PushedHistory(old(history), old(historyIndex), path, historyLimit)
      ensures historyIndex == |history| - 1 && history[historyIndex] == path
      ensures currentPath == old(currentPath)
    {
      history := PushedHistory(history, historyIndex, path, historyLimit);
      historyIndex := |history| - 1;
    }

    /** navigateToChild(dirname): navigateTo(joinPath(currentPath, dirname)), which normalises the joined path a second time. */
    method NavigateToChild(dirname: string) returns (r: string)
      requires Valid()
      modifies this
      ensures Valid()
      ensures r == NormalizePathAsWritten(JoinPath(old(currentPath), dirname)) && currentPath == r
      ensures r == old(currentPath) ==> history == old(history) && historyIndex == old(historyIndex)
      ensures r != old(currentPath) ==>
        history == PushedHistory(old(history), old(historyIndex), r, historyLimit) && historyIndex == |history| - 1
    {
      r := NavigateTo(JoinPath(currentPath, dirname), true);
    }

    /** navigateToParent(): stays put at the root, otherwise navigateTo(parentPath). */
    method NavigateToParent() returns (r: string)
      requires Valid()
      modifies this
      ensures Valid()
      ensures old(currentPath) == "/" ==>
        r == "/" && currentPath == "/" && history == old(history) && historyIndex == old(historyIndex)
      ensures old(currentPath) != "/" ==> r == NormalizePathAsWritten(ParentPath(old(currentPath))) && currentPath == r
      ensures old(currentPath) != "/" && r == old(currentPath) ==> history == old(history) && historyIndex == old(historyIndex)
      ensures old(currentPath) != "/" && r != old(currentPath) ==>
        history == PushedHistory(old(history), old(historyIndex), r, historyLimit) && historyIndex == |history| - 1
    {
      if currentPath != "/" {
        r := NavigateTo(ParentPath(currentPath), true);
      } else {
        r := currentPath;
      }
    }

    /** navigateByBreadcrumb(item): cut the current path after the first occurrence of the item's value, prefix a slash and navigate there. */
    method NavigateByBreadcrumb(value: string) returns (r: string)
      requires Valid()
      modifies this
      ensures Valid()
      ensures IndexOf(old(currentPath), value) < 0 ==>
        r == old(currentPath) && currentPath == old(currentPath) && history == old(history) && historyIndex == old(historyIndex)
      ensures IndexOf(old(currentPath), value) >= 0 ==>
        r == NormalizePathAsWritten(BreadcrumbCut(old(currentPath), value)) && currentPath == r
      ensures IndexOf(old(currentPath), value) >= 0 && r == old(currentPath) ==>
        history == old(history) && historyIndex == old(historyIndex)
      ensures IndexOf(old(currentPath), value) >= 0 && r != old(currentPath) ==>
        history == PushedHistory(old(history), old(historyIndex), r, historyLimit) && historyIndex == |history| - 1
    {
      if IndexOf(currentPath, value) != -1 {
        r := NavigateTo(BreadcrumbCut(currentPath, value), true);
      } else {
        r := currentPath;
      }
    }

    method GoBack() returns (r: string)
      requires Valid()
      modifies this
      ensures Valid() && history == old(history)
      ensures old(historyIndex) > 0 ==> historyIndex == old(historyIndex) - 1 && currentPath == history[historyIndex]
      ensures old(historyIndex) == 0 ==> historyIndex == 0 && currentPath == old(currentPath)
      ensures r == currentPath
    {
      if CanGoBack() {
        historyIndex := historyIndex - 1;
        currentPath := history[historyIndex];
      }
      r := currentPath;
    }

    method GoForward() returns (r: string)
      requires Valid()
      modifies this
      ensures Valid() && history == old(history)
      ensures old(historyIndex) < |history| - 1 ==>
        historyIndex == old(historyIndex) + 1 && currentPath == history[historyIndex]
      ensures old(historyIndex) == |history| - 1 ==>
        historyIndex == old(historyIndex) && currentPath == old(currentPath)
      ensures r == currentPath
    {
      if CanGoForward() {
        historyIndex := historyIndex + 1;
        currentPath := history[historyIndex];
      }
      r := currentPath;
    }

    method Reset()
      requires Valid()
      modifies this
      ensures Valid()
      ensures currentPath == initialPath && history == [initialPath] && historyIndex == 0
    {
      currentPath := initialPath;
      history := [initialPath];
      historyIndex := 0;
    }
  }
}
