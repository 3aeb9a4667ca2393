# Team Pilgrim core, modelled in Dafny

Team Pilgrim is a Visual Studio extension that replaces Team Explorer for
Team Foundation Server. This project models five parts of it and proves
properties of them:

- **Settings store** (`settings.dfy`, module `Settings`). The INI table of
  sections and keys behind `TeamPilgrimSettings`. Every accessor first
  materialises the section and the key with its default, so reads change the
  table. This covers the check-in action, the query-list separator and the
  maximum query count, the previously selected query lists kept per index,
  and the defaults written when loading the file fails. The class updates its
  table in place and is proved against pure functions on the table. Those
  functions carry the round-trip and frame lemmas.
- **Text operations** (`text.dfy`, module `Text`). The .NET string operations
  the store is built on: `string.Join`, `string.Split` with
  `RemoveEmptyEntries` (an empty separator cuts nothing), `int.ToString`
  and `Convert.ToInt32`. It holds
  the split/join and print/parse round trips.
- **Solution enumeration and frame lookup** (`vs_service.dfy`, module
  `VsService`). `GetSolutionFilePaths` walks the solution tree, appending to
  one shared list. Solution folders, unloaded projects, ordinary projects and
  directory items each contribute differently. Functions state what each node
  contributes; the recursive methods with their loops are proved to append
  exactly that. The module also covers the lookup of an open document window
  by editor type and moniker, closing a query definition's windows, and the
  version control path and build security token strings.
- **View-model state rules** (`service_model.dfy`, module `ServiceModel`).
  `TeamPilgrimServiceModel` has change-only property setters, a
  notification log, connect handlers, and the handlers that keep the active
  collection and the selected workspace consistent with the two observable
  lists. It also models the context-change handler, the sequential part of
  the background populate, refresh and the resolve-conflicts command.
- **Project collection lifecycle** (`collection_model.dfy`, module
  `CollectionModel`). The states Invalid, Fetching and Active of a
  collection node, the fetch callback that builds and activates the project
  models, and the reference-equality `ProjectModels` setter.
- **Collection cache** (`tfs_service.dfy`, module `TfsService`). The
  `GetOrAdd` cache of authenticated collections, keyed by the URI's string
  form, and the projections that wrap registered collections and
  work-item-store projects.

`wrappers.dfy` holds the `Option` type.

Calls into Visual Studio, TFS and the file system become parameters:
- the loaded INI table;
- the solution tree with each item's attribute lookup result;
- the list of open document windows;
- the provider's lookup results;
- the server's project lists.

Exceptions the source catches become `None` or a distinguished case. Events
are replayed one after another.

## Model

| member | source | states |
|---|---|---|
| Text.Pieces | src/TeamPilgrim.VisualStudio/TeamPilgrimSettings.cs:172 | cutting at the separator never loses text: joining the pieces with the separator gives the input back |
| Text.Join | src/TeamPilgrim.VisualStudio/TeamPilgrimSettings.cs:183 | joining n >= 1 parts puts the separator between neighbours only: n - 1 separators plus all the parts' characters, starting with the first part |
| Text.NonEmpty | src/TeamPilgrim.VisualStudio/TeamPilgrimSettings.cs:172 | `RemoveEmptyEntries` keeps the non-empty entries and no empty one; a single entry is kept exactly when it is not empty |
| Text.NonEmptyAppend | src/TeamPilgrim.VisualStudio/TeamPilgrimSettings.cs:172 | the filter works entry by entry: filtering a concatenation concatenates the filtered halves, so order and multiplicity are kept |
| Text.NonEmptyOfFilled | src/TeamPilgrim.VisualStudio/TeamPilgrimSettings.cs:172 | a list with no empty entry passes the filter unchanged |
| Text.Split | src/TeamPilgrim.VisualStudio/TeamPilgrimSettings.cs:172 | a split never yields an empty entry; an empty stored value yields no entries; with an empty separator the whole non-empty text is the single entry |
| Text.PiecesOfFree | src/TeamPilgrim.VisualStudio/TeamPilgrimSettings.cs:172 | a text containing no separator character is a single piece |
| Text.PiecesAfterFree | src/TeamPilgrim.VisualStudio/TeamPilgrimSettings.cs:172 | a separator-free prefix followed by the separator is cut exactly there |
| Text.PiecesOfJoin | src/TeamPilgrim.VisualStudio/TeamPilgrimSettings.cs:172-183 | cutting a join of separator-free parts gives the parts back |
| Text.SplitJoin | src/TeamPilgrim.VisualStudio/TeamPilgrimSettings.cs:172-183 | split after join gives the list without its empty entries, when no entry contains a separator character |
| Text.NatToDecimal | src/TeamPilgrim.VisualStudio/TeamPilgrimSettings.cs:143 | `ToString` of a natural number is a non-empty digit string with no leading zero |
| Text.IntToString | src/TeamPilgrim.VisualStudio/TeamPilgrimSettings.cs:130-143 | `ToString` of an integer is non-empty, starts with '-' exactly when the integer is negative, and is otherwise made of digits |
| Text.DecimalRoundTrip | src/TeamPilgrim.VisualStudio/TeamPilgrimSettings.cs:133-143 | reading the printed digits gives the number back |
| Text.ParseInt32 | src/TeamPilgrim.VisualStudio/TeamPilgrimSettings.cs:133 | `Convert.ToInt32` succeeds only on a non-empty text and only with a 32-bit value |
| Text.IntRoundTrip | src/TeamPilgrim.VisualStudio/TeamPilgrimSettings.cs:133-143 | parsing what `ToString` printed gives the same 32-bit integer back |
| Text.NegativeRoundTrip | src/TeamPilgrim.VisualStudio/TeamPilgrimSettings.cs:133-143 | a negative 32-bit integer printed with its minus sign parses back to itself |
| Text.NonNegativeRoundTrip | src/TeamPilgrim.VisualStudio/TeamPilgrimSettings.cs:133-143 | a non-negative 32-bit integer printed as plain digits parses back to itself |
| Settings.ParseAction | src/TeamPilgrim.VisualStudio/TeamPilgrimSettings.cs:83 | `Enum.Parse` succeeds exactly on a member name, and the member's name is the parsed text |
| Settings.ActionName | src/TeamPilgrim.VisualStudio/TeamPilgrimSettings.cs:93 | `value.ToString()` of the check-in action is its member name, and the two members have different names |
| Settings.WithSection | src/TeamPilgrim.VisualStudio/TeamPilgrimSettings.cs:56-67 | the section exists afterwards, is empty if it was new, and no other section changes |
| Settings.WithKey | src/TeamPilgrim.VisualStudio/TeamPilgrimSettings.cs:73-78 | get-or-insert: the key holds its old value or else the default; no other key of any section changes |
| Settings.Store | src/TeamPilgrim.VisualStudio/TeamPilgrimSettings.cs:85-94 | a setter leaves the value under its key and changes no other key |
| Settings.StoreAfterWithKey | src/TeamPilgrim.VisualStudio/TeamPilgrimSettings.cs:87-93 | a setter's get-or-insert of the default is overwritten by its assignment, whatever the default |
| Settings.CheckinActionOf | src/TeamPilgrim.VisualStudio/TeamPilgrimSettings.cs:71-84 | the check-in action reads as `Resolve` when the key is missing or empty, otherwise as the member whose name is stored |
| Settings.WithCheckinAction | src/TeamPilgrim.VisualStudio/TeamPilgrimSettings.cs:85-94 | the setter stores the member name under its key and changes no other key |
| Settings.CheckinActionRoundTrip | src/TeamPilgrim.VisualStudio/TeamPilgrimSettings.cs:83-93 | setting the check-in action and reading it back gives the same member |
| Settings.SeparatorOf | src/TeamPilgrim.VisualStudio/TeamPilgrimSettings.cs:99-110 | the separator reads as the default separator when absent, else as the stored text; the getter leaves that value in the table |
| Settings.WithSeparator | src/TeamPilgrim.VisualStudio/TeamPilgrimSettings.cs:111-120 | the setter stores the separator under its key and changes no other key |
| Settings.SeparatorRoundTrip | src/TeamPilgrim.VisualStudio/TeamPilgrimSettings.cs:101-119 | set-then-get of the separator returns the value set, and the getter then changes nothing |
| Settings.MaxCountOf | src/TeamPilgrim.VisualStudio/TeamPilgrimSettings.cs:125-134 | the max count is a 32-bit integer and reads as 5 when the key is missing |
| Settings.WithMaxCount | src/TeamPilgrim.VisualStudio/TeamPilgrimSettings.cs:135-144 | the setter stores the printed integer under its key and changes no other key |
| Settings.MaxCountRoundTrip | src/TeamPilgrim.VisualStudio/TeamPilgrimSettings.cs:127-143 | set-then-get of the max count returns the same integer |
| Settings.DefaultMaxCountText | src/TeamPilgrim.VisualStudio/TeamPilgrimSettings.cs:130 | the inserted default is the text "5" |
| Settings.QueriesOf | src/TeamPilgrim.VisualStudio/TeamPilgrimSettings.cs:164-173 | a query list read has no empty entries, is empty for a missing or empty stored value, and holds at most one entry when the separator is empty |
| Settings.WithQueries | src/TeamPilgrim.VisualStudio/TeamPilgrimSettings.cs:175-184 | a list write stores the list joined with the separator read before it under the index, and leaves the separator as it reads |
| Settings.QueriesOfMissingIndex | src/TeamPilgrim.VisualStudio/TeamPilgrimSettings.cs:164-172 | reading a never-written index returns no queries and stores "" under it |
| Settings.QueriesRoundTrip | src/TeamPilgrim.VisualStudio/TeamPilgrimSettings.cs:172-183 | writing a list and reading it back gives the list without empty entries, when no entry contains a separator character |
| Settings.EmptySeparatorMergesQueries | src/TeamPilgrim.VisualStudio/TeamPilgrimSettings.cs:164-184 | with an empty separator any entries, written back to back, read back as a single merged entry, or none when all are empty |
| Settings.WithQueriesFrame | src/TeamPilgrim.VisualStudio/TeamPilgrimSettings.cs:175-184 | a list write changes only its own key in the queries section, plus the separator default the getter may insert; General is untouched when the separator is present |
| Settings.FallbackDefaults | src/TeamPilgrim.VisualStudio/TeamPilgrimSettings.cs:44-47 | from an empty table the three self-assignments leave General holding "Resolve", the default separator and "5" and nothing else |
| Settings.TeamPilgrimSettings.constructor | src/TeamPilgrim.VisualStudio/TeamPilgrimSettings.cs:34-52 | the table is the loaded one, or exactly the fallback defaults when loading threw; the query indexer is bound to this object |
| Settings.TeamPilgrimSettings.AssignGeneralSettingsToThemselves | src/TeamPilgrim.VisualStudio/TeamPilgrimSettings.cs:44-47 | on an empty table, reading each general setting (its default) and writing it back leaves exactly the fallback defaults in the table |
| Settings.TeamPilgrimSettings.EnsureSection | src/TeamPilgrim.VisualStudio/TeamPilgrimSettings.cs:56-67 | the table becomes `WithSection` of the old one |
| Settings.TeamPilgrimSettings.EnsureKey | src/TeamPilgrim.VisualStudio/TeamPilgrimSettings.cs:74-77 | the table becomes `WithKey` of the old one |
| Settings.TeamPilgrimSettings.GetSelectedWorkItemCheckinAction | src/TeamPilgrim.VisualStudio/TeamPilgrimSettings.cs:71-84 | returns `CheckinActionOf` the old table and leaves its get-or-insert table |
| Settings.TeamPilgrimSettings.SetSelectedWorkItemCheckinAction | src/TeamPilgrim.VisualStudio/TeamPilgrimSettings.cs:85-94 | the table becomes `WithCheckinAction` of the old one |
| Settings.TeamPilgrimSettings.GetSeparator | src/TeamPilgrim.VisualStudio/TeamPilgrimSettings.cs:99-110 | returns `SeparatorOf` the old table and leaves its get-or-insert table |
| Settings.TeamPilgrimSettings.SetSeparator | src/TeamPilgrim.VisualStudio/TeamPilgrimSettings.cs:111-120 | the table becomes `WithSeparator` of the old one |
| Settings.TeamPilgrimSettings.GetMaxCount | src/TeamPilgrim.VisualStudio/TeamPilgrimSettings.cs:125-134 | returns `MaxCountOf` the old table and leaves its get-or-insert table |
| Settings.TeamPilgrimSettings.SetMaxCount | src/TeamPilgrim.VisualStudio/TeamPilgrimSettings.cs:135-144 | the table becomes `WithMaxCount` of the old one |
| Settings.TeamPilgrimSettings.GetPreviouslySelectedWorkItemsQueries | src/TeamPilgrim.VisualStudio/TeamPilgrimSettings.cs:164-173 | returns `QueriesOf` the old table, for any stored separator; the index key and the separator are materialised |
| Settings.TeamPilgrimSettings.SetPreviouslySelectedWorkItemsQueries | src/TeamPilgrim.VisualStudio/TeamPilgrimSettings.cs:175-184 | the table becomes `WithQueries` of the old one, for any stored separator |
| Settings.PreviouslySelectedWorkItemsQueriesCollection.Get | src/TeamPilgrim.VisualStudio/TeamPilgrimSettings.cs:197 | the indexer getter returns `QueriesOf` the owning settings' table for the index and leaves its `QueriesTable` |
| Settings.PreviouslySelectedWorkItemsQueriesCollection.Set | src/TeamPilgrim.VisualStudio/TeamPilgrimSettings.cs:198 | the indexer setter makes the owning settings' table `WithQueries` of the old one |
| VsService.ItemPaths | src/TeamPilgrim.VisualStudio/Business/Services/VisualStudio/TeamPilgrimVsService.cs:212-234 | whatever an item contributes ends with its own path |
| VsService.ProjectPaths | src/TeamPilgrim.VisualStudio/Business/Services/VisualStudio/TeamPilgrimVsService.cs:156-210 | an unloaded project contributes nothing; an ordinary project contributes its file name first and at least one path per item |
| VsService.FolderItemsPaths | src/TeamPilgrim.VisualStudio/Business/Services/VisualStudio/TeamPilgrimVsService.cs:170-197 | a solution folder whose items are none of solution-item kind contributes nothing |
| VsService.ChildrenPaths | src/TeamPilgrim.VisualStudio/Business/Services/VisualStudio/TeamPilgrimVsService.cs:205-208 | siblings contribute at least one path each |
| VsService.ProjectsPaths | src/TeamPilgrim.VisualStudio/Business/Services/VisualStudio/TeamPilgrimVsService.cs:147-150 | top-level projects that are all unloaded contribute nothing, and each ordinary project contributes at least one path |
| VsService.SolutionItems | src/TeamPilgrim.VisualStudio/Business/Services/VisualStudio/TeamPilgrimVsService.cs:171-175 | the items a solution folder looks at are all of solution-item kind |
| VsService.FolderIgnoresOtherItems | src/TeamPilgrim.VisualStudio/Business/Services/VisualStudio/TeamPilgrimVsService.cs:167-198 | a solution folder contributes no path of its own, and non-solution items contribute nothing |
| VsService.ChildrenPathsAppend | src/TeamPilgrim.VisualStudio/Business/Services/VisualStudio/TeamPilgrimVsService.cs:220-225 | what siblings contribute is what two consecutive runs of them contribute, one after the other |
| VsService.DirectoryIsPostOrder | src/TeamPilgrim.VisualStudio/Business/Services/VisualStudio/TeamPilgrimVsService.cs:218-228 | in a directory's contribution each child's paths follow the earlier children's, precede the later ones', and all precede the directory's own path |
| VsService.ItemPathsAreVisitedPaths | src/TeamPilgrim.VisualStudio/Business/Services/VisualStudio/TeamPilgrimVsService.cs:212-234 | each visited item appends its own path exactly once, in post-order, whether or not its attribute lookup failed; a non-directory visits no child |
| VsService.ChildrenPathsAreVisitedPaths | src/TeamPilgrim.VisualStudio/Business/Services/VisualStudio/TeamPilgrimVsService.cs:205-208 | siblings contribute exactly the paths of the items they visit, in visiting order |
| VsService.PathList.Add | src/TeamPilgrim.VisualStudio/Business/Services/VisualStudio/TeamPilgrimVsService.cs:228 | `List.Add` appends one element at the end |
| VsService.PopulateProject | src/TeamPilgrim.VisualStudio/Business/Services/VisualStudio/TeamPilgrimVsService.cs:156-210 | appends exactly `ProjectPaths`; an unloaded project appends nothing; an ordinary project's file name comes before any path from its items |
| VsService.PopulateChildProjectItems | src/TeamPilgrim.VisualStudio/Business/Services/VisualStudio/TeamPilgrimVsService.cs:212-234 | appends exactly `ItemPaths` of the item |
| VsService.GetSolutionFilePaths | src/TeamPilgrim.VisualStudio/Business/Services/VisualStudio/TeamPilgrimVsService.cs:136-154 | the solution file name comes first, then the top-level projects' contributions in enumeration order |
| VsService.FindFrame | src/TeamPilgrim.VisualStudio/Business/Services/VisualStudio/TeamPilgrimVsService.cs:298-324 | the result is the first window whose moniker and editor type both match, or none exactly when no window matches |
| VsService.GetVsWindowFrameByTypeAndMoniker | src/TeamPilgrim.VisualStudio/Business/Services/VisualStudio/TeamPilgrimVsService.cs:298-324 | the enumerator loop returns `FindFrame` of the open windows |
| VsService.Without | src/TeamPilgrim.VisualStudio/Business/Services/VisualStudio/TeamPilgrimVsService.cs:280 | closing a window removes it and keeps every other window open |
| VsService.FindFrameWithout | src/TeamPilgrim.VisualStudio/Business/Services/VisualStudio/TeamPilgrimVsService.cs:279-282 | closing a window that does not match a lookup does not change what the lookup finds |
| VsService.CloseQueryDefinitionFrames | src/TeamPilgrim.VisualStudio/Business/Services/VisualStudio/TeamPilgrimVsService.cs:275-286 | closes the first query-editor window and the first results window for the id, two different windows, and leaves every other window open |
| VsService.QueryMoniker | src/TeamPilgrim.VisualStudio/Business/Services/VisualStudio/TeamPilgrimVsService.cs:277 | the query-editor moniker is the fixed query prefix followed by the id |
| VsService.ResultsMoniker | src/TeamPilgrim.VisualStudio/Business/Services/VisualStudio/TeamPilgrimVsService.cs:282 | the results moniker is the fixed results prefix followed by the id |
| VsService.QueryAndResultsMonikersDiffer | src/TeamPilgrim.VisualStudio/Business/Services/VisualStudio/TeamPilgrimVsService.cs:277-282 | a query-editor moniker is never a results moniker |
| VsService.MonikersAreInjective | src/TeamPilgrim.VisualStudio/Business/Services/VisualStudio/TeamPilgrimVsService.cs:277-282 | distinct query ids give distinct monikers of each kind |
| VsService.SourceControlPath | src/TeamPilgrim.VisualStudio/Business/Services/VisualStudio/TeamPilgrimVsService.cs:259 | the navigation path is the server root "$/" followed by the project name |
| VsService.SourceControlPathsDiffer | src/TeamPilgrim.VisualStudio/Business/Services/VisualStudio/TeamPilgrimVsService.cs:259 | the navigation path starts with "$/" and distinct projects get distinct paths |
| VsService.SecurityToken | src/TeamPilgrim.VisualStudio/Business/Services/VisualStudio/TeamPilgrimVsService.cs:370 | the token is the project id, then the separator, then the definition id, with nothing added |
| VsService.SecurityTokenSplits | src/TeamPilgrim.VisualStudio/Business/Services/VisualStudio/TeamPilgrimVsService.cs:370 | the token cut at the namespace separator gives the project id and the definition id back |
| ServiceModel.Assigned | src/TeamPilgrim.VisualStudio/Model/Core/TeamPilgrimServiceModel.cs:33-40 | a change-only setter announces nothing exactly when the value is unchanged, and otherwise one change of its own property |
| ServiceModel.AssignTwiceAnnouncesOnce | src/TeamPilgrim.VisualStudio/Model/Core/TeamPilgrimServiceModel.cs:33-40 | assigning the same value twice announces it once |
| ServiceModel.FirstOrDefault | src/TeamPilgrim.VisualStudio/Model/Core/TeamPilgrimServiceModel.cs:270 | the active collection is null exactly for an empty list, else its first element |
| ServiceModel.SelectionAfterChange | src/TeamPilgrim.VisualStudio/Model/Core/TeamPilgrimServiceModel.cs:273-286 | after a list change the selection is null for an empty list, the old selection whenever it is still a member, and otherwise the first model |
| ServiceModel.SelectionIsStable | src/TeamPilgrim.VisualStudio/Model/Core/TeamPilgrimServiceModel.cs:273-286 | running the workspace-info handler again changes nothing |
| ServiceModel.SelectionNotifications | src/TeamPilgrim.VisualStudio/Model/Core/TeamPilgrimServiceModel.cs:123-133 | a selection change announces the selection last, preceded by the workspace model exactly when a non-null selection found its workspace |
| ServiceModel.LastMatch | src/TeamPilgrim.VisualStudio/Model/Core/TeamPilgrimServiceModel.cs:235-251 | the remembered workspace info is the last one named like the active workspace, none when none is |
| ServiceModel.LastMatchStep | src/TeamPilgrim.VisualStudio/Model/Core/TeamPilgrimServiceModel.cs:235-251 | one more workspace info makes it the remembered match when it is named like the active workspace, and keeps the earlier match otherwise |
| ServiceModel.PopulatedSelection | src/TeamPilgrim.VisualStudio/Model/Core/TeamPilgrimServiceModel.cs:233-257 | after a populate, a non-empty workspace list has a selection among the new models and an empty one none |
| ServiceModel.ServerItems | src/TeamPilgrim.VisualStudio/Model/Core/TeamPilgrimServiceModel.cs:374-376 | one server path per working folder, in order |
| ServiceModel.TeamPilgrimServiceModel.constructor | src/TeamPilgrim.VisualStudio/Model/Core/TeamPilgrimServiceModel.cs:156-195 | starts with empty lists, no selection, nothing announced, and a populate requested exactly when the active context has a domain |
| ServiceModel.TeamPilgrimServiceModel.SetConnecting | src/TeamPilgrim.VisualStudio/Model/Core/TeamPilgrimServiceModel.cs:33-40 | stores the value and announces `Connecting` only if it changed |
| ServiceModel.TeamPilgrimServiceModel.SetConnectingServer | src/TeamPilgrim.VisualStudio/Model/Core/TeamPilgrimServiceModel.cs:51-58 | stores the value and announces `ConnectingServer` only if it changed |
| ServiceModel.TeamPilgrimServiceModel.SetConnectedStatus | src/TeamPilgrim.VisualStudio/Model/Core/TeamPilgrimServiceModel.cs:69-76 | stores the value and announces `ConnectedStatus` only if it changed |
| ServiceModel.TeamPilgrimServiceModel.SetConnectedError | src/TeamPilgrim.VisualStudio/Model/Core/TeamPilgrimServiceModel.cs:87-94 | stores the value and announces `ConnectedError` only if it changed |
| ServiceModel.TeamPilgrimServiceModel.SetActiveProjectCollectionModel | src/TeamPilgrim.VisualStudio/Model/Core/TeamPilgrimServiceModel.cs:105-112 | stores the value and announces `ActiveProjectCollectionModel` only if it changed |
| ServiceModel.TeamPilgrimServiceModel.SetSelectedWorkspaceModel | src/TeamPilgrim.VisualStudio/Model/Core/TeamPilgrimServiceModel.cs:143-150 | stores the value and announces `SelectedWorkspaceModel` only if it changed |
| ServiceModel.TeamPilgrimServiceModel.LoadWorkspaceModel | src/TeamPilgrim.VisualStudio/Model/Core/TeamPilgrimServiceModel.cs:333-344 | a found workspace replaces the selected workspace model with a new one for it in the active collection, announced once; nothing found changes and announces nothing |
| ServiceModel.TeamPilgrimServiceModel.SetSelectedWorkspaceInfoModel | src/TeamPilgrim.VisualStudio/Model/Core/TeamPilgrimServiceModel.cs:123-133 | change-only; a new non-null selection loads its workspace, and the workspace model is announced before the selection itself |
| ServiceModel.TeamPilgrimServiceModel.OnServerConnecting | src/TeamPilgrim.VisualStudio/Model/Core/TeamPilgrimServiceModel.cs:166-170 | `Connecting` becomes true and `ConnectingServer` the collection's name, or null without a collection |
| ServiceModel.TeamPilgrimServiceModel.OnServerConnected | src/TeamPilgrim.VisualStudio/Model/Core/TeamPilgrimServiceModel.cs:172-178 | `Connecting` becomes false; name, error and status are taken from the event |
| ServiceModel.TeamPilgrimServiceModel.ProjectCollectionModelsOnCollectionChanged | src/TeamPilgrim.VisualStudio/Model/Core/TeamPilgrimServiceModel.cs:268-271 | the active collection becomes the first of the list, or null |
| ServiceModel.TeamPilgrimServiceModel.WorkspaceInfoModelsOnCollectionChanged | src/TeamPilgrim.VisualStudio/Model/Core/TeamPilgrimServiceModel.cs:273-286 | the selection becomes `SelectionAfterChange`; a change to a model loads that model's workspace with its announcements, a change to null announces only the selection, no change announces nothing |
| ServiceModel.TeamPilgrimServiceModel.ClearProjectCollectionModels | src/TeamPilgrim.VisualStudio/Model/Core/TeamPilgrimServiceModel.cs:211 | clearing the collection list leaves no active collection and keeps the invariant |
| ServiceModel.TeamPilgrimServiceModel.AddProjectCollectionModel | src/TeamPilgrim.VisualStudio/Model/Core/TeamPilgrimServiceModel.cs:218 | adding a collection keeps the first one active and the invariant; the active collection is announced exactly when the list was empty |
| ServiceModel.TeamPilgrimServiceModel.ClearWorkspaceInfoModels | src/TeamPilgrim.VisualStudio/Model/Core/TeamPilgrimServiceModel.cs:223 | clearing the workspace list clears the selection, announced exactly when there was one, and keeps the workspace model and the invariant |
| ServiceModel.TeamPilgrimServiceModel.AddWorkspaceInfoModel | src/TeamPilgrim.VisualStudio/Model/Core/TeamPilgrimServiceModel.cs:238 | adding to an empty list selects the new model and loads its workspace, with the announcements; otherwise nothing but the list changes |
| ServiceModel.TeamPilgrimServiceModel.MarkActiveProject | src/TeamPilgrim.VisualStudio/Model/Core/TeamPilgrimServiceModel.cs:309-314 | a project model is marked active exactly when its name is the active project's |
| ServiceModel.TeamPilgrimServiceModel.OnContextChanged | src/TeamPilgrim.VisualStudio/Model/Core/TeamPilgrimServiceModel.cs:288-317 | a collection change with no new domain clears the collections, announcing the active collection if it changes; with a domain it requests a populate of it; a team-project change alone marks exactly the project models named like the active project; no project model changes otherwise, and nothing else is announced |
| ServiceModel.TeamPilgrimServiceModel.Refresh | src/TeamPilgrim.VisualStudio/Model/Core/TeamPilgrimServiceModel.cs:348-356 | a populate is requested exactly when the active context has a domain |
| ServiceModel.TeamPilgrimServiceModel.Populate | src/TeamPilgrim.VisualStudio/Model/Core/TeamPilgrimServiceModel.cs:197-266 | a failed collection lookup changes nothing; otherwise the collection list is replaced by at most one new model; with workspace infos the list is rebuilt one model per info in order with `PopulatedSelection` selected; the resulting workspace model and the full announcement sequence are stated for every branch |
| ServiceModel.TeamPilgrimServiceModel.RebuildWorkspaceInfoModels | src/TeamPilgrim.VisualStudio/Model/Core/TeamPilgrimServiceModel.cs:220-258 | the list is cleared and refilled with one new model per info, in order, keeping the invariant, with `PopulatedSelection` selected; the workspace model is the one loaded for the match when it differs from the first model and was found, else the one loaded for the first; the announcements are the clear, the first selection and the match's selection, in that order |
| ServiceModel.TeamPilgrimServiceModel.AppendWorkspaceInfoModels | src/TeamPilgrim.VisualStudio/Model/Core/TeamPilgrimServiceModel.cs:235-251 | the loop adds one new model per info, in order; the first addition selects and loads the first model; the result is the model of the last info named like the active workspace, null when there is none |
| ServiceModel.TeamPilgrimServiceModel.ShowResolveConflictManager | src/TeamPilgrim.VisualStudio/Model/Core/TeamPilgrimServiceModel.cs:369-379 | nothing without a selected workspace, else its server folder paths, recursive and not after check-in |
| CollectionModel.Next | src/TeamPilgrim.VisualStudio/Model/PilgrimProjectCollectionModel.cs:31-104 | an unqueued activation keeps the state, a queued one fetches, only a successful fetch makes the node Active, and a failed one makes it Invalid |
| CollectionModel.ActiveOnlyAfterSuccessfulFetch | src/TeamPilgrim.VisualStudio/Model/PilgrimProjectCollectionModel.cs:28-104 | a node that starts Invalid is Active only if some fetch succeeded and no fetch failed after it |
| CollectionModel.ActiveIsKeptByUnqueuedActivation | src/TeamPilgrim.VisualStudio/Model/PilgrimProjectCollectionModel.cs:35-38 | an Active node stays Active through unqueued activations and successful fetches |
| CollectionModel.PilgrimProjectModel.Activate | src/TeamPilgrim.VisualStudio/Model/PilgrimProjectCollectionModel.cs:93 | each activation is counted once |
| CollectionModel.PilgrimProjectCollectionModel.constructor | src/TeamPilgrim.VisualStudio/Model/PilgrimProjectCollectionModel.cs:20-29 | a new node is Invalid with no project models |
| CollectionModel.PilgrimProjectCollectionModel.OnActivated | src/TeamPilgrim.VisualStudio/Model/PilgrimProjectCollectionModel.cs:31-39 | the node moves to Fetching only if the work item was queued |
| CollectionModel.PilgrimProjectCollectionModel.SetProjectModels | src/TeamPilgrim.VisualStudio/Model/PilgrimProjectCollectionModel.cs:117-124 | assigning the same array changes nothing and announces nothing |
| CollectionModel.NewProjectModels | src/TeamPilgrim.VisualStudio/Model/PilgrimProjectCollectionModel.cs:82-84 | one new, distinct, not yet activated project model per fetched project, in order |
| CollectionModel.PilgrimProjectCollectionModel.ActivateEach | src/TeamPilgrim.VisualStudio/Model/PilgrimProjectCollectionModel.cs:91-94 | each model is activated exactly once more, in array order |
| CollectionModel.PilgrimProjectCollectionModel.PopulateCallback | src/TeamPilgrim.VisualStudio/Model/PilgrimProjectCollectionModel.cs:71-104 | success: one new model per fetched project in order, then Active, then each new model activated exactly once; failure: Invalid with the project models kept |
| TfsService.WrapCollections | src/TeamPilgrim.VisualStudio/Business/Services/TeamPilgrimService.cs:27-35 | one wrapper per registered collection, in order |
| TfsService.WrapProjects | src/TeamPilgrim.VisualStudio/Business/Services/TeamPilgrimService.cs:42-52 | one wrapper per work-item-store project, in store order |
| TfsService.UnwrapWrapProjects | src/TeamPilgrim.VisualStudio/Business/Services/TeamPilgrimService.cs:42-52 | wrapping loses nothing: unwrapping gives the store's projects back |
| TfsService.TeamPilgrimService.constructor | src/TeamPilgrim.VisualStudio/Business/Services/TeamPilgrimService.cs:14 | the cache starts empty |
| TfsService.TeamPilgrimService.GetTfsTeamProjectCollection | src/TeamPilgrim.VisualStudio/Business/Services/TeamPilgrimService.cs:16-25 | a hit returns the stored collection with no new connection or authentication; a miss stores a new one authenticated once; entries are never removed or replaced |
| TfsService.TeamPilgrimService.GetPilgrimProjectCollections | src/TeamPilgrim.VisualStudio/Business/Services/TeamPilgrimService.cs:27-35 | one wrapper per registered collection, in order |
| TfsService.TeamPilgrimService.GetPilgrimProjects | src/TeamPilgrim.VisualStudio/Business/Services/TeamPilgrimService.cs:37-40 | the projects of the cached collection for the URI, one wrapper each; the cache gains at most that entry, new and authenticated once on a miss, and no other entry changes |
| TfsService.TeamPilgrimService.GetTeamPilgrimBuildService | src/TeamPilgrim.VisualStudio/Business/Services/TeamPilgrimService.cs:54-58 | the build service is bound to the cached collection for the URI; the cache gains at most that entry, new and authenticated once on a miss, and no other entry changes |
| TfsService.ProjectsAndBuildServiceShareOneCollection | src/TeamPilgrim.VisualStudio/Business/Services/TeamPilgrimService.cs:37-58 | projects and build service for URIs with the same string form come from one cache entry: the build service's collection is the one stored under that string, the stored one on a hit and a single new one on a miss, authenticated once |

## Left out

- Text.IntToString: the number is printed with '-' and ASCII digits; `ToString()` uses the current culture, and one with another negative sign would store different text.
- INI file input and output are not modelled: the settings file path, `LoadFile` and `SaveFile`. The loaded table is a constructor parameter, and a failed load is `None`.
- `AddKey(key)` without a value is taken to store the empty string.
- Settings.TeamPilgrimSettings.GetSelectedWorkItemCheckinAction: requires a stored value that is empty or a member name. The `Enum.Parse` exception and its leniency are not modelled: case-insensitivity is not used, and surrounding whitespace and numeric strings are not handled.
- Settings.TeamPilgrimSettings.GetMaxCount: requires a stored value that `Convert.ToInt32` accepts. Its exceptions are not modelled, and neither is its leniency (a leading '+', surrounding whitespace).
- `SelectedWorkItemCheckinActionEnum` is declared in another file of the program; the model gives it the two members `Resolve` and `Associate`.
- Null strings inside a query list are not modelled; entries are non-null.
- VsService.PopulateChildProjectItems: only a failure of the attribute lookup is modelled as the caught exception. A failure while enumerating a directory's children is not.
- The EnvDTE object graph and `File.GetAttributes` are replaced by the `Project`/`Item` tree, with each item's lookup result.
- Every other method of the Visual Studio service only forwards to Visual Studio or TFS, and is not modelled. This includes the solution event stubs and the `Navigate` and security dialog calls themselves; their path and token arguments are modelled.
- Background workers, cancellation, the reset-event handshake, dispatcher invocation and thread-pool queueing are not modelled. Events run one after another, and a deferred dispatcher action runs at once. A request to run the populate worker is recorded in `populateRequests` instead of being run.
- ServiceModel.TeamPilgrimServiceModel.LoadWorkspaceModel: requires a non-empty collection list, where the source would throw. Every sequential populate path meets this.
- ServiceModel.TeamPilgrimServiceModel.OnContextChanged: requires an active collection for a team-project change, where the source would dereference null. The active project context is assumed non-null there.
- The filling of a collection view model's own project list (`ProjectCollectionServiceModel.Populate`) is not part of this model. A new collection view model starts with no project models.
- The relay commands, the TFS connect command and logging are not modelled.
- The base model's `Activate`, and the `State` property's own notifications, are not part of this model. Activation is recorded in a counter and in the node's event log.
- TfsService.TeamPilgrimService.GetTfsTeamProjectCollection: the factory and `Authenticate` cannot fail in the model. In the source a throw from either leaves nothing stored, so the next call tries again.
- `ConcurrentDictionary` thread-safety is not modelled; in particular, `GetOrAdd` may run the factory twice under a race.
- `TfsTeamProjectCollectionFactory`, the work item store and the registered-connections list are parameters. `Uri.ToString()` is the URI's `text` field.
