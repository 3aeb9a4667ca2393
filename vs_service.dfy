/**
 * The decisions the Visual Studio service makes on its own: flattening the
 * solution tree into the list of file paths (solution file, then each
 * project's contribution), finding an open document window by moniker and
 * editor type, and the moniker, server path and security token strings it
 * builds. The host object graph is replaced by the `Project` / `Item` tree
 * below; `attributes` is what the file system reports for an item's path.
 */
module VsService {
  import opened Wrappers
  import Text

  datatype ProjectKind = Unmodeled | SolutionFolder | OrdinaryProject

  datatype ItemKind = SolutionItemKind | OtherItemKind

  /** `File.GetAttributes(path)`: a directory, anything else, or an exception. */
  datatype PathAttributes = Directory | NotDirectory | LookupFailed

  datatype Project = Project(kind: ProjectKind, fileName: string, items: seq<Item>)

  /**
   * A project item. `path` is `FileNames[0]`; `solutionFileName` is
   * `FileNames[1]`, which may be null; `subProject` is the nested project of
   * an item inside a solution folder; `children` are its `ProjectItems`.
   */
  datatype Item = Item(
    kind: ItemKind,
    path: string,
    solutionFileName: Option<string>,
    subProject: Option<Project>,
    attributes: PathAttributes,
    children: seq<Item>)

  datatype Solution = Solution(fileName: string, projects: seq<Project>)

  // ---------------------------------------------------------------------
  // What each node contributes

  /** The paths one project contributes, in the order they are appended. */
  function ProjectPaths(p: Project): (r: seq<string>)
    ensures p.kind == Unmodeled ==> r == []
    ensures p.kind == OrdinaryProject ==> |r| >= 1 + |p.items| && r[0] == p.fileName
    decreases p, 2
  {
    match p.kind
    case Unmodeled => []
    case SolutionFolder => FolderItemsPaths(p.items)
    case OrdinaryProject => [p.fileName] + ChildrenPaths(p.items)
  }

  /** The paths the items of a solution folder contribute, one after another. */
  function FolderItemsPaths(items: seq<Item>): (r: seq<string>)
    ensures (forall k :: 0 <= k < |items| ==> items[k].kind != SolutionItemKind) ==> r == []
    decreases items, 1
  {
    if items == [] then [] else FolderItemsPaths(items[..|items| - 1]) + FolderItemPaths(items[|items| - 1])
  }

  /**
   * What one item of a solution folder contributes: only solution items
   * count; a nested project is recursed into, otherwise the item's file name
   * is added unless it is null.
   */
  function FolderItemPaths(i: Item): seq<string>
    decreases i, 0
  {
    if i.kind != SolutionItemKind then []
    else match i.subProject
      case Some(sub) => ProjectPaths(sub)
      case None => if i.solutionFileName.Some? then [i.solutionFileName.value] else []
  }

  /**
   * The paths one project item contributes: a directory first lists what its
   * children contribute, then its own path; any other item, including one
   * whose attribute lookup failed, only its own path.
   */
  function ItemPaths(i: Item): (r: seq<string>)
    ensures |r| >= 1 && r[|r| - 1] == i.path
    decreases i, 1
  {
    if i.attributes == Directory then ChildrenPaths(i.children) + [i.path] else [i.path]
  }

  /** The paths a sequence of sibling items contributes, one after another. */
  function ChildrenPaths(items: seq<Item>): (r: seq<string>)
    ensures |r| >= |items|
    decreases items, 0
  {
    if items == [] then [] else ChildrenPaths(items[..|items| - 1]) + ItemPaths(items[|items| - 1])
  }

  /** The paths a sequence of top-level projects contributes, one after another. */
  function ProjectsPaths(projects: seq<Project>): (r: seq<string>)
    ensures (forall k :: 0 <= k < |projects| ==> projects[k].kind == Unmodeled) ==> r == []
    ensures |r| >= |OrdinaryProjects(projects)|
  {
    if projects == [] then [] else ProjectsPaths(projects[..|projects| - 1]) + ProjectPaths(projects[|projects| - 1])
  }

  /** The ordinary projects among `projects`, in order. */
  function OrdinaryProjects(projects: seq<Project>): seq<Project> {
    if projects == [] then []
    else OrdinaryProjects(projects[..|projects| - 1])
         + (if projects[|projects| - 1].kind == OrdinaryProject then [projects[|projects| - 1]] else [])
  }

  // ---------------------------------------------------------------------
  // Properties of the enumeration

  /** The items a solution folder looks at: those of solution-item kind, in order. */
  function SolutionItems(items: seq<Item>): (r: seq<Item>)
    ensures forall k :: 0 <= k < |r| ==> r[k].kind == SolutionItemKind
    ensures |r| <= |items|
  {
    if items == [] then []
    else SolutionItems(items[..|items| - 1])
         + (if items[|items| - 1].kind == SolutionItemKind then [items[|items| - 1]] else [])
  }

  /**
   * A solution folder contributes no path of its own (its file name plays no
   * part) and items that are not solution items contribute nothing.
   */
  lemma {:induction false} FolderIgnoresOtherItems(p: Project, fileName: string)
    requires p.kind == SolutionFolder
    ensures ProjectPaths(p) == ProjectPaths(Project(SolutionFolder, fileName, SolutionItems(p.items)))
  {
    FolderItemsOnlySolutionItems(p.items);
  }

  lemma {:induction false} FolderItemsOnlySolutionItems(items: seq<Item>)
    ensures FolderItemsPaths(items) == FolderItemsPaths(SolutionItems(items))
  {
    if items != [] {
      var init, last := items[..|items| - 1], items[|items| - 1];
      FolderItemsOnlySolutionItems(init);
      var f := SolutionItems(init);
      if last.kind == SolutionItemKind {
        assert SolutionItems(items) == f + [last];
        assert (f + [last])[..|f|] == f;
      } else {
        assert SolutionItems(items) == f;
      }
    }
  }

  /** What siblings contribute is what each of two consecutive runs of them contributes. */
  lemma {:induction false} ChildrenPathsAppend(a: seq<Item>, b: seq<Item>)
    ensures ChildrenPaths(a + b) == ChildrenPaths(a) + ChildrenPaths(b)
    decreases |b|
  {
    if b == [] {
      assert a + b == a;
    } else {
      var b0 := b[..|b| - 1];
      ChildrenPathsAppend(a, b0);
      assert (a + b)[..|a + b| - 1] == a + b0;
    }
  }

  /**
   * Post-order: in what a directory contributes, everything its k-th child
   * contributes comes after the earlier children, before the later ones, and
   * before the directory's own path, which is last.
   */
  lemma DirectoryIsPostOrder(i: Item, k: nat)
    requires i.attributes == Directory && k < |i.children|
    ensures ItemPaths(i) == ChildrenPaths(i.children[..k]) + ItemPaths(i.children[k])
                            + ChildrenPaths(i.children[k + 1..]) + [i.path]
  {
    var c := i.children;
    assert c == c[..k] + [c[k]] + c[k + 1..];
    ChildrenPathsAppend(c[..k] + [c[k]], c[k + 1..]);
    ChildrenPathsAppend(c[..k], [c[k]]);
    assert ChildrenPaths([c[k]]) == ItemPaths(c[k]) by {
      assert [c[k]][..0] == [];
    }
  }

  /** The items `PopulateChildProjectItems` visits, in the order it finishes them. */
  function Visited(i: Item): (r: seq<Item>)
    decreases i, 1
  {
    (if i.attributes == Directory then VisitedAll(i.children) else []) + [i]
  }

  function VisitedAll(items: seq<Item>): seq<Item>
    decreases items, 0
  {
    if items == [] then [] else VisitedAll(items[..|items| - 1]) + Visited(items[|items| - 1])
  }

  function PathsOf(items: seq<Item>): (r: seq<string>)
    ensures |r| == |items| && forall k :: 0 <= k < |items| ==> r[k] == items[k].path
  {
    seq(|items|, k requires 0 <= k < |items| => items[k].path)
  }

  /**
   * Every visited item appends its own path exactly once, in the order it is
   * finished, whether or not its attribute lookup failed; an item that is not
   * a directory visits nothing but itself.
   */
  lemma {:induction false} ItemPathsAreVisitedPaths(i: Item)
    ensures ItemPaths(i) == PathsOf(Visited(i))
    ensures i.attributes != Directory ==> Visited(i) == [i]
    decreases i, 1
  {
    if i.attributes == Directory {
      ChildrenPathsAreVisitedPaths(i.children);
      PathsOfAppend(VisitedAll(i.children), [i]);
    }
  }

  lemma {:induction false} ChildrenPathsAreVisitedPaths(items: seq<Item>)
    ensures ChildrenPaths(items) == PathsOf(VisitedAll(items))
    decreases items, 0
  {
    if items != [] {
      var init, last := items[..|items| - 1], items[|items| - 1];
      ChildrenPathsAreVisitedPaths(init);
      ItemPathsAreVisitedPaths(last);
      PathsOfAppend(VisitedAll(init), Visited(last));
    }
  }

  lemma PathsOfAppend(a: seq<Item>, b: seq<Item>)
    ensures PathsOf(a + b) == PathsOf(a) + PathsOf(b)
  {
  }

  // ---------------------------------------------------------------------
  // The enumeration as the source runs it

  /** The `List<string>` the enumeration appends to. */
  class PathList {
    var elems: seq<string>

    constructor (initial: seq<string>)
      ensures elems == initial
    {
      elems := initial;
    }

    method Add(path: string)
      modifies this
      ensures elems == old(elems) + [path]
    {
      elems := elems + [path];
    }
  }

  method PopulateProject(result: PathList, project: Project)
    modifies result
    ensures result.elems == old(result.elems) + ProjectPaths(project)
    ensures project.kind == Unmodeled ==> result.elems == old(result.elems)
    ensures project.kind == OrdinaryProject ==> result.elems[|old(result.elems)|] == project.fileName
    decreases project
  {
    if project.kind == Unmodeled {
      return;
    }
    var items := project.items;
    if project.kind == SolutionFolder {
      var k := 0;
      while k < |items|
        invariant 0 <= k <= |items|
        invariant result.elems == old(result.elems) + FolderItemsPaths(items[..k])
      {
        var item := items[k];
        if item.kind == SolutionItemKind {
          if item.subProject.Some? {
            PopulateProject(result, item.subProject.value);
          } else if item.solutionFileName.Some? {
            result.Add(item.solutionFileName.value);
          }
        }
        assert items[..k + 1][..k] == items[..k];
        k := k + 1;
      }
      assert items[..k] == items;
    } else {
      result.Add(project.fileName);
      var k := 0;
      while k < |items|
        invariant 0 <= k <= |items|
        invariant result.elems == old(result.elems) + [project.fileName] + ChildrenPaths(items[..k])
      {
        PopulateChildProjectItems(result, items[k]);
        assert items[..k + 1][..k] == items[..k];
        k := k + 1;
      }
      assert items[..k] == items;
    }
  }

  method PopulateChildProjectItems(result: PathList, item: Item)
    modifies result
    ensures result.elems == old(result.elems) + ItemPaths(item)
    decreases item
  {
    var path := item.path;
    if item.attributes == LookupFailed {
      // the exception handler
      result.Add(path);
      return;
    }
    if item.attributes == Directory {
      var children := item.children;
      var k := 0;
      while k < |children|
        invariant 0 <= k <= |children|
        invariant result.elems == old(result.elems) + ChildrenPaths(children[..k])
      {
        PopulateChildProjectItems(result, children[k]);
        assert children[..k + 1][..k] == children[..k];
        k := k + 1;
      }
      assert children[..k] == children;
    }
    result.Add(path);
  }

  /** The solution file name first, then what each top-level project contributes, in order. */
  method GetSolutionFilePaths(solution: Solution) returns (paths: seq<string>)
    ensures |paths| >= 1 && paths[0] == solution.fileName
    ensures paths[1..] == ProjectsPaths(solution.projects)
  {
    var list := new PathList([solution.fileName]);
    var projects := solution.projects;
    var k := 0;
    while k < |projects|
      invariant 0 <= k <= |projects|
      invariant list.elems == [solution.fileName] + ProjectsPaths(projects[..k])
    {
      PopulateProject(list, projects[k]);
      assert projects[..k + 1][..k] == projects[..k];
      k := k + 1;
    }
    assert projects[..k] == projects;
    paths := list.elems;
  }

  // ---------------------------------------------------------------------
  // Document window frames

  /** An editor type GUID (`VSFPROPID_guidEditorType`). */
  datatype EditorTypeId = EditorTypeId(value: nat)

  /**
   * An open document window: `handle` tells frames apart, `moniker` is its
   * document moniker (null for some frames) and `editorType` its editor type.
   */
  datatype WindowFrame = WindowFrame(handle: nat, moniker: Option<string>, editorType: EditorTypeId)

  predicate FrameMatches(f: WindowFrame, editorType: EditorTypeId, moniker: string) {
    f.moniker == Some(moniker) && f.editorType == editorType
  }

  predicate NoMatchBefore(frames: seq<WindowFrame>, n: nat, editorType: EditorTypeId, moniker: string)
    requires n <= |frames|
  {
    forall j :: 0 <= j < n ==> !FrameMatches(frames[j], editorType, moniker)
  }

  /**
   * The first frame in enumeration order whose moniker and editor type both
   * equal the targets, or `None` (null) when no frame does.
   */
  function FindFrame(frames: seq<WindowFrame>, editorType: EditorTypeId, moniker: string): (r: Option<WindowFrame>)
    ensures r.None? <==> NoMatchBefore(frames, |frames|, editorType, moniker)
    ensures r.Some? ==> exists k :: 0 <= k < |frames| && frames[k] == r.value
                                   && FrameMatches(frames[k], editorType, moniker)
                                   && NoMatchBefore(frames, k, editorType, moniker)
  {
    if frames == [] then None
    else if FrameMatches(frames[0], editorType, moniker) then
      assert NoMatchBefore(frames, 0, editorType, moniker);
      Some(frames[0])
    else
      var r := FindFrame(frames[1..], editorType, moniker);
      if r.Some? then
        var k :| 0 <= k < |frames[1..]| && frames[1..][k] == r.value
                 && FrameMatches(frames[1..][k], editorType, moniker)
                 && NoMatchBefore(frames[1..], k, editorType, moniker);
        assert NoMatchBefore(frames, k + 1, editorType, moniker) by {
          forall j | 0 <= j < k + 1
            ensures !FrameMatches(frames[j], editorType, moniker)
          {
            if j > 0 { assert frames[j] == frames[1..][j - 1]; }
          }
        }
        r
      else
        assert NoMatchBefore(frames, |frames|, editorType, moniker) by {
          forall j | 0 <= j < |frames|
            ensures !FrameMatches(frames[j], editorType, moniker)
          {
            if j > 0 { assert frames[j] == frames[1..][j - 1]; }
          }
        }
        r
  }

  /** The enumerator loop over the open document windows. */
  method GetVsWindowFrameByTypeAndMoniker(frames: seq<WindowFrame>, editorType: EditorTypeId, moniker: string)
    returns (frame: Option<WindowFrame>)
    ensures frame == FindFrame(frames, editorType, moniker)
  {
    var k := 0;
    while k < |frames|
      invariant 0 <= k <= |frames|
      invariant FindFrame(frames[k..], editorType, moniker) == FindFrame(frames, editorType, moniker)
    {
      var current := frames[k];
      if current.moniker.Some? && current.moniker.value == moniker && current.editorType == editorType {
        return Some(current);
      }
      assert frames[k..][1..] == frames[k + 1..];
      k := k + 1;
    }
    return None;
  }

  // ---------------------------------------------------------------------
  // Monikers, paths and tokens

  const QueryMonikerPrefix := "vstfs:///WorkItemTracking/Query/"
  const ResultsMonikerPrefix := "vstfs:///WorkItemTracking/Results/"

  /** The moniker of the window that edits the query with id `queryId`. */
  function QueryMoniker(queryId: string): (r: string)
    ensures |r| == |QueryMonikerPrefix| + |queryId| && r[..|QueryMonikerPrefix|] == QueryMonikerPrefix
  {
    QueryMonikerPrefix + queryId
  }

  /** The moniker of the window that shows the results of the query with id `queryId`. */
  function ResultsMoniker(queryId: string): (r: string)
    ensures |r| == |ResultsMonikerPrefix| + |queryId| && r[..|ResultsMonikerPrefix|] == ResultsMonikerPrefix
  {
    ResultsMonikerPrefix + queryId
  }

  /** A query-editor moniker is never a results moniker, whatever the two ids. */
  lemma QueryAndResultsMonikersDiffer(a: string, b: string)
    ensures QueryMoniker(a) != ResultsMoniker(b)
  {
    assert QueryMoniker(a)[26] == 'Q';
    assert ResultsMoniker(b)[26] == 'R';
  }

  /** Distinct query ids give distinct monikers of each kind. */
  lemma MonikersAreInjective(a: string, b: string)
    requires a != b
    ensures QueryMoniker(a) != QueryMoniker(b)
    ensures ResultsMoniker(a) != ResultsMoniker(b)
  {
    assert QueryMoniker(a)[|QueryMonikerPrefix|..] == a;
    assert QueryMoniker(b)[|QueryMonikerPrefix|..] == b;
    assert ResultsMoniker(a)[|ResultsMonikerPrefix|..] == a;
    assert ResultsMoniker(b)[|ResultsMonikerPrefix|..] == b;
  }

  function AsSeq(o: Option<WindowFrame>): seq<WindowFrame> {
    if o.Some? then [o.value] else []
  }

  /** The open document windows after `frame` is closed. */
  function Without(frames: seq<WindowFrame>, frame: WindowFrame): (r: seq<WindowFrame>)
    ensures forall f :: f in r <==> f in frames && f != frame
  {
    if frames == [] then []
    else if frames[0] == frame then Without(frames[1..], frame)
    else [frames[0]] + Without(frames[1..], frame)
  }

  /** Closing a window that does not match a lookup does not change what the lookup finds. */
  lemma {:induction false} FindFrameWithout(frames: seq<WindowFrame>, frame: WindowFrame, editorType: EditorTypeId, moniker: string)
    requires !FrameMatches(frame, editorType, moniker)
    ensures FindFrame(Without(frames, frame), editorType, moniker) == FindFrame(frames, editorType, moniker)
  {
    if frames != [] {
      FindFrameWithout(frames[1..], frame, editorType, moniker);
      if frames[0] != frame {
        assert ([frames[0]] + Without(frames[1..], frame))[1..] == Without(frames[1..], frame);
      }
    }
  }

  /**
   * Closes the windows of a query definition: first the query-editor window
   * for its id, if one is open, then, among the windows still open, the
   * results window for its id. `closed` lists the windows closed, in order,
   * and `remaining` the windows left open. A query-editor window never
   * matches the results lookup, so both lookups find what they would find
   * among the windows open at the start.
   */
  method CloseQueryDefinitionFrames(frames: seq<WindowFrame>, queryViewType: EditorTypeId,
                                    resultsViewType: EditorTypeId, queryId: string)
    returns (closed: seq<WindowFrame>, remaining: seq<WindowFrame>)
    ensures closed == AsSeq(FindFrame(frames, queryViewType, QueryMoniker(queryId)))
                      + AsSeq(FindFrame(frames, resultsViewType, ResultsMoniker(queryId)))
    ensures |closed| == 2 ==> closed[0] != closed[1]
    ensures forall f :: f in remaining <==> f in frames && f !in closed
  {
    var open := frames;
    closed := [];
    var queryFrame := GetVsWindowFrameByTypeAndMoniker(open, queryViewType, QueryMoniker(queryId));
    if queryFrame.Some? {
      QueryAndResultsMonikersDiffer(queryId, queryId);
      FindFrameWithout(frames, queryFrame.value, resultsViewType, ResultsMoniker(queryId));
      open := Without(open, queryFrame.value);
      closed := closed + [queryFrame.value];
    }
    var resultsFrame := GetVsWindowFrameByTypeAndMoniker(open, resultsViewType, ResultsMoniker(queryId));
    if resultsFrame.Some? {
      open := Without(open, resultsFrame.value);
      closed := closed + [resultsFrame.value];
    }
    remaining := open;
  }

  /** The version control path `OpenSourceControl` navigates to. */
  function SourceControlPath(projectName: string): (r: string)
    ensures |r| == |projectName| + 2 && r[..2] == "$/"
  {
    "$/" + projectName
  }

  /** Each team project has its own server path, under the root "$/". */
  lemma SourceControlPathsDiffer(a: string, b: string)
    requires a != b
    ensures SourceControlPath(a) != SourceControlPath(b)
    ensures SourceControlPath(a)[..2] == "$/"
  {
    assert SourceControlPath(a)[2..] == a;
    assert SourceControlPath(b)[2..] == b;
  }

  /** The security token of a build definition: project id, namespace separator, definition id. */
  function SecurityToken(projectId: string, separator: string, definitionId: string): (r: string)
    ensures |r| == |projectId| + |separator| + |definitionId|
    ensures r[..|projectId|] == projectId
  {
    projectId + separator + definitionId
  }

  /**
   * The token determines both ids: cutting it at the separator gives the
   * project id and the definition id back when neither contains a character
   * of the separator.
   */
  lemma SecurityTokenSplits(projectId: string, separator: string, definitionId: string)
    requires |separator| > 0
    requires Text.FreeOf(projectId, separator) && Text.FreeOf(definitionId, separator)
    ensures Text.Pieces(SecurityToken(projectId, separator, definitionId), separator) == [projectId, definitionId]
  {
    Text.PiecesAfterFree(projectId, definitionId, separator);
    Text.PiecesOfFree(definitionId, separator);
  }
}
