/**
 * `DocumentSearchResultFormatter`: turns a search result into the bot's
 * reply. Fixed messages for the non-found statuses; for found results a
 * header and the hits arranged as a folder tree built from their
 * `/`-separated paths. The tree's dictionaries use `OrdinalIgnoreCase`, so
 * names are compared by `EqualsIgnoreCase` and keep the spelling they were
 * first added with; they enumerate in insertion order.
 */
module DocumentSearchResultFormatter {
  import opened Wrappers
  import opened Chars
  import opened Text
  import opened Ordering
  import opened DocumentSearch
  import CaseInsensitiveDictionary

  /** A folder: its name, its sub-folders and its files (name and contexts), a dictionary ignoring case. */
  datatype DirectoryNode = DirectoryNode(name: string, directories: seq<DirectoryNode>, files: CaseInsensitiveDictionary.Dict<seq<string>>)

  const Root := DirectoryNode("", [], [])

  /** Where `name` sits among the folders (found by `OrdinalIgnoreCase`), or `|dirs|` when it is absent. */
  function FindDirectory(dirs: seq<DirectoryNode>, name: string): (k: nat)
    ensures k <= |dirs|
    ensures k < |dirs| ==> EqualsIgnoreCase(dirs[k].name, name)
    ensures forall j | 0 <= j < k :: !EqualsIgnoreCase(dirs[j].name, name)
  {
    if dirs == [] then 0
    else if EqualsIgnoreCase(dirs[0].name, name) then 0
    else 1 + FindDirectory(dirs[1..], name)
  }

  /**
   * `GetOrAddDirectory`: the folder named `name` ignoring case, added empty
   * at the end when there is none, as the updated parent and its position.
   */
  function GetOrAddDirectory(node: DirectoryNode, name: string): (r: (DirectoryNode, nat))
    ensures r.1 < |r.0.directories| && r.1 == FindDirectory(r.0.directories, name)
    ensures r.0.name == node.name && r.0.files == node.files
    ensures r.1 < |node.directories| ==> r.0 == node
    ensures r.1 == |node.directories| ==> r.0.directories == node.directories + [DirectoryNode(name, [], [])]
  {
    var k := FindDirectory(node.directories, name);
    if k < |node.directories| then (node, k)
    else
      var dirs := node.directories + [DirectoryNode(name, [], [])];
      FindDirectoryAppended(node.directories, name);
      (node.(directories := dirs), k)
  }

  lemma {:induction false} FindDirectoryAppended(dirs: seq<DirectoryNode>, name: string)
    requires FindDirectory(dirs, name) == |dirs|
    ensures FindDirectory(dirs + [DirectoryNode(name, [], [])], name) == |dirs|
  {
    if dirs != [] {
      assert (dirs + [DirectoryNode(name, [], [])])[1..] == dirs[1..] + [DirectoryNode(name, [], [])];
      FindDirectoryAppended(dirs[1..], name);
    }
  }

  lemma {:induction false} SameFindDirectory(dirs: seq<DirectoryNode>, r: seq<DirectoryNode>, name: string)
    requires |r| == |dirs| && forall j | 0 <= j < |dirs| :: r[j].name == dirs[j].name
    ensures FindDirectory(r, name) == FindDirectory(dirs, name)
  {
    if dirs != [] {
      SameFindDirectory(dirs[1..], r[1..], name);
    }
  }

  /** The loop of `AddPath` over the folder parts and the final `Files[last] = contexts`. */
  function Insert(node: DirectoryNode, parts: seq<string>, contexts: seq<string>): (r: DirectoryNode)
    requires |parts| > 0
    ensures r.name == node.name
    decreases |parts|
  {
    if |parts| == 1 then node.(files := CaseInsensitiveDictionary.Set(node.files, parts[0], contexts))
    else
      var (parent, k) := GetOrAddDirectory(node, parts[0]);
      parent.(directories := parent.directories[k := Insert(parent.directories[k], parts[1..], contexts)])
  }

  /** The parts of a hit's path: back slashes become `/`, then trimmed non-empty pieces between `/`. */
  function PathParts(relativePath: string): seq<string> {
    SplitEntries(ReplaceChar(relativePath, '\\', '/'), '/')
  }

  /** `AddPath`: a path with no parts is ignored. */
  function AddPath(root: DirectoryNode, relativePath: string, contexts: seq<string>): DirectoryNode {
    var parts := PathParts(relativePath);
    if parts == [] then root else Insert(root, parts, contexts)
  }

  /** The file reached by following `parts` ignoring case, and its contexts. */
  function FileAt(node: DirectoryNode, parts: seq<string>): Option<seq<string>>
    requires |parts| > 0
    decreases |parts|
  {
    if |parts| == 1 then
      CaseInsensitiveDictionary.Get(node.files, parts[0])
    else
      var k := FindDirectory(node.directories, parts[0]);
      if k < |node.directories| then FileAt(node.directories[k], parts[1..]) else None
  }

  /** After inserting a file, looking it up gives the contexts just stored: a later hit with the same key overwrites. */
  lemma {:induction false} InsertThenFind(node: DirectoryNode, parts: seq<string>, contexts: seq<string>)
    requires |parts| > 0
    ensures FileAt(Insert(node, parts, contexts), parts) == Some(contexts)
    decreases |parts|
  {
    if |parts| > 1 {
      var (parent, k) := GetOrAddDirectory(node, parts[0]);
      var child := Insert(parent.directories[k], parts[1..], contexts);
      var dirs := parent.directories[k := child];
      SameFindDirectory(parent.directories, dirs, parts[0]);
      InsertThenFind(parent.directories[k], parts[1..], contexts);
      assert parts[1..][1..] == parts[2..];
    } else {
      CaseInsensitiveDictionary.SetGets(node.files, parts[0], contexts, parts[0]);
    }
  }

  /** Two paths name the same file when they have as many parts and the parts are equal ignoring case. */
  predicate SamePath(a: seq<string>, b: seq<string>) {
    |a| == |b| && forall k | 0 <= k < |a| :: EqualsIgnoreCase(a[k], b[k])
  }

  /** Inserting a file leaves every other path's file as it was. */
  lemma {:induction false} InsertKeepsOthers(node: DirectoryNode, parts: seq<string>, contexts: seq<string>, other: seq<string>)
    requires |parts| > 0 && |other| > 0 && !SamePath(parts, other)
    ensures FileAt(Insert(node, parts, contexts), other) == FileAt(node, other)
    decreases |parts|, 2
  {
    if |parts| == 1 && |other| == 1 {
      assert !EqualsIgnoreCase(parts[0], other[0]);
      CaseInsensitiveDictionary.SetGets(node.files, parts[0], contexts, other[0]);
    } else if |parts| > 1 && |other| > 1 {
      InsertBelowKeepsOthers(node, parts, contexts, other);
    }
  }

  /** The case of `InsertKeepsOthers` where both paths go through a directory. */
  lemma {:induction false} InsertBelowKeepsOthers(node: DirectoryNode, parts: seq<string>, contexts: seq<string>, other: seq<string>)
    requires |parts| > 1 && |other| > 1 && !SamePath(parts, other)
    ensures FileAt(Insert(node, parts, contexts), other) == FileAt(node, other)
    decreases |parts|, 1
  {
    if EqualsIgnoreCase(parts[0], other[0]) {
      InsertBelowSameFolder(node, parts, contexts, other);
    } else {
      InsertBelowOtherFolder(node, parts, contexts, other);
    }
  }

  /** Both paths enter the same folder: the insertion below it keeps the other path's file. */
  lemma {:induction false} InsertBelowSameFolder(node: DirectoryNode, parts: seq<string>, contexts: seq<string>, other: seq<string>)
    requires |parts| > 1 && |other| > 1 && !SamePath(parts, other) && EqualsIgnoreCase(parts[0], other[0])
    ensures FileAt(Insert(node, parts, contexts), other) == FileAt(node, other)
    decreases |parts|, 0
  {
    var added := GetOrAddDirectory(node, parts[0]);
    var parent, k := added.0, added.1;
    var child := Insert(parent.directories[k], parts[1..], contexts);
    var dirs := parent.directories[k := child];
    assert Insert(node, parts, contexts) == parent.(directories := dirs);
    SameFindDirectory(parent.directories, dirs, other[0]);
    FindDirectoryByFold(parent.directories, parts[0], other[0]);
    FindDirectoryByFold(node.directories, parts[0], other[0]);
    TailsDiffer(parts, other);
    InsertKeepsOthers(parent.directories[k], parts[1..], contexts, other[1..]);
    if k == |node.directories| {
      FileAtEmpty(parts[0], other[1..]);
    }
  }

  /** The paths enter different folders: the other path's folder is untouched. */
  lemma InsertBelowOtherFolder(node: DirectoryNode, parts: seq<string>, contexts: seq<string>, other: seq<string>)
    requires |parts| > 1 && |other| > 1 && !EqualsIgnoreCase(parts[0], other[0])
    ensures FileAt(Insert(node, parts, contexts), other) == FileAt(node, other)
  {
    var added := GetOrAddDirectory(node, parts[0]);
    var parent, k := added.0, added.1;
    var child := Insert(parent.directories[k], parts[1..], contexts);
    var dirs := parent.directories[k := child];
    assert Insert(node, parts, contexts) == parent.(directories := dirs);
    SameFindDirectory(parent.directories, dirs, other[0]);
    if k == |node.directories| {
      FindDirectoryAppend(node.directories, DirectoryNode(parts[0], [], []), other[0]);
    }
  }

  /** Two different paths whose first names agree differ further on. */
  lemma TailsDiffer(parts: seq<string>, other: seq<string>)
    requires |parts| > 0 && |other| > 0 && EqualsIgnoreCase(parts[0], other[0]) && !SamePath(parts, other)
    ensures !SamePath(parts[1..], other[1..])
  {
    if SamePath(parts[1..], other[1..]) {
      forall i | 0 <= i < |parts| ensures EqualsIgnoreCase(parts[i], other[i]) {
        if i > 0 {
          assert parts[1..][i - 1] == parts[i] && other[1..][i - 1] == other[i];
        }
      }
    }
  }

  lemma FileAtEmpty(name: string, parts: seq<string>)
    requires |parts| > 0
    ensures FileAt(DirectoryNode(name, [], []), parts) == None
  {
  }

  /** Lookups agree for names that are equal ignoring case. */
  lemma {:induction false} FindDirectoryByFold(dirs: seq<DirectoryNode>, a: string, b: string)
    requires EqualsIgnoreCase(a, b)
    ensures FindDirectory(dirs, a) == FindDirectory(dirs, b)
  {
    if dirs != [] {
      FindDirectoryByFold(dirs[1..], a, b);
    }
  }

  lemma {:induction false} FindDirectoryAppend(dirs: seq<DirectoryNode>, e: DirectoryNode, name: string)
    requires !EqualsIgnoreCase(e.name, name)
    ensures FindDirectory(dirs + [e], name) == FindDirectory(dirs, name) + (if FindDirectory(dirs, name) == |dirs| then 1 else 0)
  {
    if dirs == [] {
      assert ([e])[1..] == [];
    } else {
      assert (dirs + [e])[1..] == dirs[1..] + [e];
      FindDirectoryAppend(dirs[1..], e, name);
    }
  }

  /** Regrouping appended sequences. */
  lemma Assoc<T>(a: seq<T>, b: seq<T>, c: seq<T>)
    ensures (a + b) + c == a + (b + c)
  {
  }

  lemma Regroup4<T>(a: seq<T>, b: seq<T>, c: seq<T>, d: seq<T>)
    ensures ((a + b) + c) + d == a + ((b + c) + d)
  {
  }

  // --------------------------------------------------------------- rendering

  function DirectoryKey(d: DirectoryNode): seq<int> {
    FoldKey(d.name)
  }

  function FileKey(f: (string, seq<string>)): seq<int> {
    FoldKey(f.0)
  }

  /**
   * The lines `Render` appends for `node` at `indentLevel`: its folders
   * sorted ignoring case, each as its indented name followed by its own
   * lines one level deeper (with an empty line between folders at the top
   * level only), then its files sorted ignoring case.
   */
  function Rendered(node: DirectoryNode, indentLevel: nat): seq<string>
    decreases node, 1
  {
    var directories := SortBy(node.directories, DirectoryKey);
    SortByMembers(node.directories, DirectoryKey);
    DirectoryLines(node, directories, 0, indentLevel) + FileLines(SortBy(node.files, FileKey), Spaces(indentLevel * 2))
  }

  /** The folders from position `from` on. */
  function DirectoryLines(parent: DirectoryNode, directories: seq<DirectoryNode>, from: nat, indentLevel: nat): seq<string>
    requires from <= |directories| && forall d | d in directories :: d in parent.directories
    decreases parent, 0, |directories| - from
  {
    if from == |directories| then []
    else DirectoryEntry(parent, directories, from, indentLevel) + DirectoryLines(parent, directories, from + 1, indentLevel)
  }

  /** Folder `i`: an empty line first when at the top level and not first, its indented name, then its contents one level deeper. */
  function DirectoryEntry(parent: DirectoryNode, directories: seq<DirectoryNode>, i: nat, indentLevel: nat): seq<string>
    requires i < |directories| && forall d | d in directories :: d in parent.directories
    decreases parent, 0, 0
  {
    assert directories[i] in parent.directories;
    (if indentLevel == 0 && i > 0 then [""] else [])
    + [Spaces(indentLevel * 2) + directories[i].name]
    + Rendered(directories[i], indentLevel + 1)
  }

  /** Each file as `- name`, followed by its non-blank contexts two spaces deeper. */
  function FileLines(files: seq<(string, seq<string>)>, indent: string): seq<string> {
    if files == [] then []
    else [indent + "- " + files[0].0] + ContextLines(files[0].1, indent) + FileLines(files[1..], indent)
  }

  function ContextLines(contexts: seq<string>, indent: string): seq<string> {
    if contexts == [] then []
    else (if IsBlank(contexts[0]) then [] else [indent + "  " + contexts[0]]) + ContextLines(contexts[1..], indent)
  }

  method Render(node: DirectoryNode, lines: seq<string>, indentLevel: nat) returns (result: seq<string>)
    ensures result == lines + Rendered(node, indentLevel)
    decreases node, 2
  {
    var directories := SortBy(node.directories, DirectoryKey);
    SortByMembers(node.directories, DirectoryKey);
    var r1 := RenderDirectories(node, directories, lines, indentLevel);
    var files := SortBy(node.files, FileKey);
    result := RenderFiles(files, r1, Spaces(indentLevel * 2));
    ghost var dl := DirectoryLines(node, directories, 0, indentLevel);
    ghost var fl := FileLines(files, Spaces(indentLevel * 2));
    Assoc(lines, dl, fl);
    RenderedUnfold(node, indentLevel);
  }

  lemma RenderedUnfold(node: DirectoryNode, indentLevel: nat)
    ensures var directories := SortBy(node.directories, DirectoryKey);
      && (forall d | d in directories :: d in node.directories)
      && Rendered(node, indentLevel)
         == DirectoryLines(node, directories, 0, indentLevel) + FileLines(SortBy(node.files, FileKey), Spaces(indentLevel * 2))
  {
    SortByMembers(node.directories, DirectoryKey);
  }

  /** One round of the first loop of `Render`: folder `i` and everything below it. */
  method RenderDirectory(node: DirectoryNode, directories: seq<DirectoryNode>, i: nat, lines: seq<string>, indentLevel: nat)
    returns (result: seq<string>)
    requires i < |directories| && forall d | d in directories :: d in node.directories
    ensures result == lines + DirectoryEntry(node, directories, i, indentLevel)
    decreases node, 0
  {
    var directory := directories[i];
    assert directory in node.directories;
    var separator: seq<string> := if indentLevel == 0 && i > 0 then [""] else [];
    result := Render(directory, lines + separator + [Spaces(indentLevel * 2) + directory.name], indentLevel + 1);
    DirectoryEntryAppended(node, directories, i, indentLevel, lines, result);
  }

  lemma DirectoryEntryAppended(node: DirectoryNode, directories: seq<DirectoryNode>, i: nat, indentLevel: nat, lines: seq<string>, result: seq<string>)
    requires i < |directories| && forall d | d in directories :: d in node.directories
    requires result == lines + (if indentLevel == 0 && i > 0 then [""] else []) + [Spaces(indentLevel * 2) + directories[i].name]
      + Rendered(directories[i], indentLevel + 1)
    ensures result == lines + DirectoryEntry(node, directories, i, indentLevel)
  {
    var separator: seq<string> := if indentLevel == 0 && i > 0 then [""] else [];
    var line := Spaces(indentLevel * 2) + directories[i].name;
    var nested := Rendered(directories[i], indentLevel + 1);
    assert DirectoryEntry(node, directories, i, indentLevel) == (separator + [line]) + nested;
    Regroup4(lines, separator, [line], nested);
  }

  /** The first loop of `Render`: every folder, then its contents one level deeper. */
  method RenderDirectories(node: DirectoryNode, directories: seq<DirectoryNode>, lines: seq<string>, indentLevel: nat)
    returns (result: seq<string>)
    requires forall d | d in directories :: d in node.directories
    ensures result == lines + DirectoryLines(node, directories, 0, indentLevel)
    decreases node, 1
  {
    result := lines;
    for i := 0 to |directories|
      invariant result + DirectoryLines(node, directories, i, indentLevel) == lines + DirectoryLines(node, directories, 0, indentLevel)
    {
      ghost var before := result;
      result := RenderDirectory(node, directories, i, result, indentLevel);
      Assoc(before, DirectoryEntry(node, directories, i, indentLevel), DirectoryLines(node, directories, i + 1, indentLevel));
    }
  }

  /** The second loop of `Render`: each file and its non-blank contexts. */
  method RenderFiles(files: seq<(string, seq<string>)>, lines: seq<string>, indent: string) returns (result: seq<string>)
    ensures result == lines + FileLines(files, indent)
  {
    result := lines;
    for i := 0 to |files|
      invariant result + FileLines(files[i..], indent) == lines + FileLines(files, indent)
    {
      assert files[i..][1..] == files[i + 1..];
      ghost var before := result;
      result := result + [indent + "- " + files[i].0];
      result := RenderContexts(files[i].1, result, indent);
      Regroup4(before, [indent + "- " + files[i].0], ContextLines(files[i].1, indent), FileLines(files[i + 1..], indent));
    }
  }

  /** The inner loop of `Render`'s second loop: the non-blank contexts of one file. */
  method RenderContexts(contexts: seq<string>, lines: seq<string>, indent: string) returns (result: seq<string>)
    ensures result == lines + ContextLines(contexts, indent)
  {
    result := lines;
    for j := 0 to |contexts|
      invariant result + ContextLines(contexts[j..], indent) == lines + ContextLines(contexts, indent)
    {
      assert contexts[j..][1..] == contexts[j + 1..];
      if IsBlank(contexts[j]) {
        continue;
      }
      result := result + [indent + "  " + contexts[j]];
    }
  }

  // ------------------------------------------------------------ contents

  lemma {:induction false} ContextLinesContains(contexts: seq<string>, indent: string, k: nat)
    requires k < |contexts| && !IsBlank(contexts[k])
    ensures indent + "  " + contexts[k] in ContextLines(contexts, indent)
  {
    if k > 0 {
      ContextLinesContains(contexts[1..], indent, k - 1);
    }
  }

  lemma {:induction false} FileLinesContains(files: seq<(string, seq<string>)>, indent: string, i: nat)
    requires i < |files|
    ensures indent + "- " + files[i].0 in FileLines(files, indent)
    ensures forall k | 0 <= k < |files[i].1| && !IsBlank(files[i].1[k]) :: indent + "  " + files[i].1[k] in FileLines(files, indent)
  {
    if i > 0 {
      FileLinesContains(files[1..], indent, i - 1);
    } else {
      forall k | 0 <= k < |files[0].1| && !IsBlank(files[0].1[k])
        ensures indent + "  " + files[0].1[k] in FileLines(files, indent)
      {
        ContextLinesContains(files[0].1, indent, k);
      }
    }
  }

  lemma {:induction false} DirectoryLinesContains(parent: DirectoryNode, directories: seq<DirectoryNode>, from: nat, indentLevel: nat, i: nat)
    requires from <= i < |directories| && forall d | d in directories :: d in parent.directories
    ensures Spaces(indentLevel * 2) + directories[i].name in DirectoryLines(parent, directories, from, indentLevel)
    ensures forall x | x in Rendered(directories[i], indentLevel + 1) :: x in DirectoryLines(parent, directories, from, indentLevel)
    decreases i - from
  {
    if from < i {
      DirectoryLinesContains(parent, directories, from + 1, indentLevel, i);
    }
  }

  /** Every folder of `node` appears as its indented name, and every line of its own rendering appears too. */
  lemma RenderedListsDirectories(node: DirectoryNode, indentLevel: nat)
    ensures forall d | d in node.directories :: Spaces(indentLevel * 2) + d.name in Rendered(node, indentLevel)
    ensures forall d, x | d in node.directories && x in Rendered(d, indentLevel + 1) :: x in Rendered(node, indentLevel)
  {
    RenderedUnfold(node, indentLevel);
    var directories := SortBy(node.directories, DirectoryKey);
    SortByMembers(node.directories, DirectoryKey);
    var lines := DirectoryLines(node, directories, 0, indentLevel);
    forall d | d in node.directories
      ensures Spaces(indentLevel * 2) + d.name in lines
      ensures forall x | x in Rendered(d, indentLevel + 1) :: x in lines
    {
      var i :| 0 <= i < |directories| && directories[i] == d;
      DirectoryLinesContains(node, directories, 0, indentLevel, i);
    }
  }

  /** Every file of `node` appears as its indented `- name` line, and each of its non-blank contexts two spaces deeper. */
  lemma RenderedListsFiles(node: DirectoryNode, indentLevel: nat)
    ensures forall f | f in node.files :: Spaces(indentLevel * 2) + "- " + f.0 in Rendered(node, indentLevel)
    ensures forall f, k | f in node.files && 0 <= k < |f.1| && !IsBlank(f.1[k]) ::
      Spaces(indentLevel * 2) + "  " + f.1[k] in Rendered(node, indentLevel)
  {
    RenderedUnfold(node, indentLevel);
    var files := SortBy(node.files, FileKey);
    SortByMembers(node.files, FileKey);
    var indent := Spaces(indentLevel * 2);
    var lines := FileLines(files, indent);
    forall f | f in node.files
      ensures indent + "- " + f.0 in lines
      ensures forall k | 0 <= k < |f.1| && !IsBlank(f.1[k]) :: indent + "  " + f.1[k] in lines
    {
      var i :| 0 <= i < |files| && files[i] == f;
      FileLinesContains(files, indent, i);
    }
  }

  // ------------------------------------------------------------ formatting

  /** The tree `FormatOk` builds: each hit's path added in turn to an empty root. */
  function AddHits(hits: seq<DocumentSearchHit>): DirectoryNode {
    if hits == [] then Root
    else
      var last := hits[|hits| - 1];
      AddPath(AddHits(hits[..|hits| - 1]), last.relativePath, last.contexts)
  }

  /** A hit whose path has parts can be looked up by them, unless a later hit names the same file. */
  lemma {:induction false} AddHitsFinds(hits: seq<DocumentSearchHit>, j: nat)
    requires j < |hits| && |PathParts(hits[j].relativePath)| > 0
    requires forall m | j < m < |hits| :: !SamePath(PathParts(hits[m].relativePath), PathParts(hits[j].relativePath))
    ensures FileAt(AddHits(hits), PathParts(hits[j].relativePath)) == Some(hits[j].contexts)
  {
    var n := |hits| - 1;
    var before := AddHits(hits[..n]);
    assert AddHits(hits) == AddPath(before, hits[n].relativePath, hits[n].contexts);
    if j == n {
      AddPathFinds(before, hits[n].relativePath, hits[n].contexts);
    } else {
      var init := hits[..n];
      assert init[j] == hits[j];
      assert forall m | j < m < |init| :: !SamePath(PathParts(init[m].relativePath), PathParts(init[j].relativePath)) by {
        forall m | j < m < |init| ensures init[m] == hits[m] {
        }
      }
      AddHitsFinds(init, j);
      AddPathKeeps(before, hits[n].relativePath, hits[n].contexts, PathParts(hits[j].relativePath));
    }
  }

  /** Adding a path with parts stores its contexts under it. */
  lemma AddPathFinds(root: DirectoryNode, relativePath: string, contexts: seq<string>)
    requires |PathParts(relativePath)| > 0
    ensures FileAt(AddPath(root, relativePath, contexts), PathParts(relativePath)) == Some(contexts)
  {
    InsertThenFind(root, PathParts(relativePath), contexts);
  }

  /** Adding a path leaves the file of every other path as it was. */
  lemma AddPathKeeps(root: DirectoryNode, relativePath: string, contexts: seq<string>, other: seq<string>)
    requires |other| > 0 && !SamePath(PathParts(relativePath), other)
    ensures FileAt(AddPath(root, relativePath, contexts), other) == FileAt(root, other)
  {
    if PathParts(relativePath) != [] {
      InsertKeepsOthers(root, PathParts(relativePath), contexts, other);
    }
  }

  const NothingFound := "Ничего не найдено. Попробуйте уточнить запрос."

  /** The first line of a found answer: the total, and how many are shown when the list was cut. */
  function Header(result: DocumentSearchResult): string {
    "Найдено файлов: " + IntToString(result.totalFound)
    + (if result.isTruncated then " (показаны первые " + IntToString(|result.hits|) + ")" else "")
  }

  /** `FormatOk`: the header, an empty line and the rendered tree, joined by LF with trailing white space dropped. */
  function FormattedOk(result: DocumentSearchResult): string {
    if result.totalFound == 0 then NothingFound
    else TrimEnd(Join([Header(result), ""] + Rendered(AddHits(result.hits), 0), "\n"))
  }

  method FormatOk(result: DocumentSearchResult) returns (text: string)
    ensures text == FormattedOk(result)
  {
    if result.totalFound == 0 {
      return NothingFound;
    }
    var root := Root;
    for i := 0 to |result.hits|
      invariant root == AddHits(result.hits[..i])
    {
      assert result.hits[..i + 1][..i] == result.hits[..i];
      root := AddPath(root, result.hits[i].relativePath, result.hits[i].contexts);
    }
    assert result.hits[..|result.hits|] == result.hits;
    var lines := Render(root, [Header(result), ""], 0);
    text := TrimEnd(Join(lines, "\n"));
  }

  /** `Format`: the reply for each status, with the minimum length and the folder taken from the options. */
  function Formatted(options: Settings, result: DocumentSearchResult): string {
    match result.status
    case QueryTooShort =>
      "Запрос слишком короткий. Введите минимум " + IntToString(options.minQueryLength) + " символа(ов)."
    case IndexEmpty =>
      "Документы не найдены. Положите файлы .docx в папку \"" + options.rootPath + "\" и выполните /reindex."
    case Error =>
      if result.errorMessage.None? || IsBlank(result.errorMessage.value) then "Ошибка поиска."
      else "Ошибка поиска: " + result.errorMessage.value
    case Ok => FormattedOk(result)
  }

  method Format(options: Settings, result: DocumentSearchResult) returns (text: string)
    ensures text == Formatted(options, result)
  {
    match result.status
    case QueryTooShort =>
      text := "Запрос слишком короткий. Введите минимум " + IntToString(options.minQueryLength) + " символа(ов).";
    case IndexEmpty =>
      text := "Документы не найдены. Положите файлы .docx в папку \"" + options.rootPath + "\" и выполните /reindex.";
    case Error =>
      if result.errorMessage.None? || IsBlank(result.errorMessage.value) {
        text := "Ошибка поиска.";
      } else {
        text := "Ошибка поиска: " + result.errorMessage.value;
      }
    case Ok =>
      text := FormatOk(result);
  }

  // ------------------------------------------------------------ replies

  /** The header states the total, and ends in `)` exactly when the list was cut. */
  lemma HeaderFacts(result: DocumentSearchResult)
    ensures StartsWith(Header(result), "Найдено файлов: " + IntToString(result.totalFound))
    ensures result.isTruncated <==> Header(result)[|Header(result)| - 1] == ')'
    ensures !IsWhiteSpace(Header(result)[|Header(result)| - 1])
  {
    var h := Header(result);
    var first := "Найдено файлов: " + IntToString(result.totalFound);
    if result.isTruncated {
      assert h == first + (" (показаны первые " + IntToString(|result.hits|) + ")");
    } else {
      assert h == first + "";
      assert h[|h| - 1] == IntToString(result.totalFound)[|IntToString(result.totalFound)| - 1];
    }
  }

  /** A found answer starts with its header; an answer with nothing found is the fixed message. */
  lemma FormattedOkFacts(result: DocumentSearchResult)
    ensures result.totalFound == 0 ==> FormattedOk(result) == NothingFound
    ensures result.totalFound != 0 ==> StartsWith(FormattedOk(result), Header(result))
  {
    if result.totalFound != 0 {
      HeaderFacts(result);
      JoinedKeepsHeader(Header(result), Rendered(AddHits(result.hits), 0));
    }
  }

  /** A first line that does not end in white space survives joining with the lines after it and the final trim. */
  lemma JoinedKeepsHeader(header: string, rendered: seq<string>)
    requires header != [] && !IsWhiteSpace(header[|header| - 1])
    ensures StartsWith(TrimEnd(Join([header, ""] + rendered, "\n")), header)
  {
    var parts := [header, ""] + rendered;
    assert parts[0] == header && |parts| > 1;
    assert Join(parts, "\n") == header + ("\n" + Join(parts[1..], "\n"));
    TrimEndKeepsPrefix(header, "\n" + Join(parts[1..], "\n"));
  }

  /**
   * The reply names the configured minimum for a short query and the
   * configured folder for an empty index; an error reply carries the
   * error's message exactly when there is a non-blank one.
   */
  lemma FormattedMessages(options: Settings, result: DocumentSearchResult)
    ensures result.status == QueryTooShort ==> Contains(Formatted(options, result), IntToString(options.minQueryLength))
    ensures result.status == IndexEmpty ==> Contains(Formatted(options, result), options.rootPath)
    ensures result.status == Error ==>
      (Formatted(options, result) == "Ошибка поиска." <==> result.errorMessage.None? || IsBlank(result.errorMessage.value))
    ensures result.status == Error && result.errorMessage.Some? && !IsBlank(result.errorMessage.value) ==>
      Formatted(options, result) == "Ошибка поиска: " + result.errorMessage.value
    ensures result.status == Ok ==> Formatted(options, result) == FormattedOk(result)
  {
    var text := Formatted(options, result);
    match result.status
    case QueryTooShort =>
      var prefix := "Запрос слишком короткий. Введите минимум ";
      var n := IntToString(options.minQueryLength);
      assert text == prefix + n + " символа(ов).";
      assert OccursAt(text, n, |prefix|);
    case IndexEmpty =>
      var prefix := "Документы не найдены. Положите файлы .docx в папку \"";
      assert text == prefix + options.rootPath + "\" и выполните /reindex.";
      assert OccursAt(text, options.rootPath, |prefix|);
    case Error =>
      if result.errorMessage.Some? && !IsBlank(result.errorMessage.value) {
        assert result.errorMessage.value != [];
        assert |text| > |"Ошибка поиска."|;
      }
    case Ok =>
  }
}
