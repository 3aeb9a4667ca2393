/**
 * The Team Pilgrim view model: the observable connection properties with
 * their change-only setters, the two observable collections and the handlers
 * that keep the active collection and the selected workspace consistent with
 * them, the host's context-change handler, the sequential part of the
 * background populate, and the resolve-conflicts command.
 *
 * Every `SendPropertyChanged` is recorded in `notifications`; every request
 * to run the background populate worker is recorded in `populateRequests`.
 */
module ServiceModel {
  import opened Wrappers

  /** The properties whose changes are announced. */
  datatype Property =
    | Connecting
    | ConnectingServer
    | ConnectedStatus
    | ConnectedError
    | ActiveProjectCollectionModel
    | SelectedWorkspaceInfoModel
    | SelectedWorkspaceModel

  /** A value of `ServerConnectedEventArgs.CompletionStatusEnum`; its default is code 0. */
  datatype CompletionStatus = CompletionStatus(code: int)

  /** An exception object, told apart by identity. */
  datatype Failure = Failure(id: nat)

  /** A TFS team project collection as the view model sees it. */
  datatype TfsCollection = TfsCollection(name: string, instanceId: nat)

  /** A local workspace registration (`WorkspaceInfo`). */
  datatype WorkspaceInfo = WorkspaceInfo(qualifiedName: string)

  datatype WorkingFolder = WorkingFolder(serverItem: string, localItem: string)

  /** A version control workspace and its working folder mappings. */
  datatype Workspace = Workspace(qualifiedName: string, folders: seq<WorkingFolder>)

  /** What the host's `ContextChanged` event carries; `newDomainUri` is None when the new context or its domain URI is null. */
  datatype ContextChangedEvent = ContextChangedEvent(
    teamProjectCollectionChanged: bool,
    teamProjectChanged: bool,
    newDomainUri: Option<string>)

  /** The call the resolve-conflicts command makes on the Visual Studio service. */
  datatype ResolveConflictsRequest = ResolveConflictsRequest(
    workspace: Workspace,
    serverPaths: seq<string>,
    recursive: bool,
    afterCheckin: bool)

  /** A team project shown under the active collection. */
  class ProjectServiceModel {
    const projectName: string
    var isActive: bool

    constructor (projectName: string)
      ensures this.projectName == projectName && !isActive
    {
      this.projectName := projectName;
      isActive := false;
    }
  }

  /** A connected collection and the team projects listed under it. */
  class ProjectCollectionServiceModel {
    const collection: TfsCollection
    var projectModels: seq<ProjectServiceModel>

    constructor (collection: TfsCollection)
      ensures this.collection == collection && projectModels == []
    {
      this.collection := collection;
      projectModels := [];
    }
  }

  class WorkspaceInfoModel {
    const info: WorkspaceInfo

    constructor (info: WorkspaceInfo)
      ensures this.info == info
    {
      this.info := info;
    }
  }

  class WorkspaceServiceModel {
    const collectionModel: ProjectCollectionServiceModel?
    const workspace: Workspace

    constructor (collectionModel: ProjectCollectionServiceModel?, workspace: Workspace)
      ensures this.collectionModel == collectionModel && this.workspace == workspace
    {
      this.collectionModel := collectionModel;
      this.workspace := workspace;
    }
  }

  // ---------------------------------------------------------------------
  // The rules, as functions

  /**
   * The notification a change-only setter sends: none when the new value
   * equals the current one, otherwise exactly one, naming the property.
   */
  function Assigned<T(==)>(current: T, value: T, p: Property): (r: seq<Property>)
    ensures r == [] <==> current == value
    ensures |r| <= 1 && forall q :: q in r ==> q == p
  {
    if current == value then [] else [p]
  }

  /** Assigning a value and then the same value again announces it once. */
  lemma AssignTwiceAnnouncesOnce<T>(current: T, value: T, p: Property)
    ensures Assigned(current, value, p) + Assigned(value, value, p) == Assigned(current, value, p)
  {
  }

  /** `FirstOrDefault`: the first collection model, or null when there is none. */
  function FirstOrDefault(models: seq<ProjectCollectionServiceModel>): (r: ProjectCollectionServiceModel?)
    ensures r == null <==> models == []
    ensures r != null ==> r in models && r == models[0]
  {
    if models == [] then null else models[0]
  }

  /**
   * The selection the workspace-info handler leaves: null for an empty list;
   * otherwise the current selection if it is still a member, else the first.
   */
  function SelectionAfterChange(models: seq<WorkspaceInfoModel>, current: WorkspaceInfoModel?): (r: WorkspaceInfoModel?)
    ensures models == [] ==> r == null
    ensures models != [] ==> r != null && r in models
    ensures current != null && current in models ==> r == current
    ensures models != [] && (current == null || current !in models) ==> r == models[0]
  {
    if models == [] then null
    else if current == null || current !in models then models[0]
    else current
  }

  /** Running the workspace-info handler again changes nothing. */
  lemma SelectionIsStable(models: seq<WorkspaceInfoModel>, current: WorkspaceInfoModel?)
    ensures SelectionAfterChange(models, SelectionAfterChange(models, current)) == SelectionAfterChange(models, current)
  {
  }

  /**
   * What a change of the selected workspace info to `value` announces, given
   * the workspace the provider found for it: the newly loaded workspace model
   * first, when one was found, then the selection itself.
   */
  function SelectionNotifications(value: WorkspaceInfoModel?, found: Option<Workspace>): (r: seq<Property>)
    ensures |r| >= 1 && r[|r| - 1] == SelectedWorkspaceInfoModel
    ensures SelectedWorkspaceModel in r <==> value != null && found.Some?
  {
    (if value != null && found.Some? then [SelectedWorkspaceModel] else []) + [SelectedWorkspaceInfoModel]
  }

  /** Whether the active workspace (None when null) has the qualified name of `info`. */
  predicate IsActiveWorkspace(active: Option<string>, info: WorkspaceInfo) {
    active.Some? && active.value == info.qualifiedName
  }

  /**
   * The index of the workspace info the populate loop remembers: the last one
   * whose qualified name is the active workspace's, or None when none is.
   */
  function LastMatch(infos: seq<WorkspaceInfo>, active: Option<string>): (r: Option<nat>)
    ensures r.Some? ==> r.value < |infos| && IsActiveWorkspace(active, infos[r.value])
    ensures r.Some? ==> forall j :: r.value < j < |infos| ==> !IsActiveWorkspace(active, infos[j])
    ensures r.None? <==> forall j :: 0 <= j < |infos| ==> !IsActiveWorkspace(active, infos[j])
  {
    if infos == [] then None
    else if IsActiveWorkspace(active, infos[|infos| - 1]) then Some(|infos| - 1)
    else
      var r := LastMatch(infos[..|infos| - 1], active);
      assert forall j :: 0 <= j < |infos| - 1 ==> infos[..|infos| - 1][j] == infos[j];
      r
  }

  /** Looking at one more workspace info: it becomes the match if it is named like the active workspace. */
  lemma LastMatchStep(infos: seq<WorkspaceInfo>, k: nat, active: Option<string>)
    requires k < |infos|
    ensures LastMatch(infos[..k + 1], active)
            == if IsActiveWorkspace(active, infos[k]) then Some(k) else LastMatch(infos[..k], active)
  {
    assert infos[..k + 1][..k] == infos[..k];
  }

  /**
   * The selection a completed populate leaves: the remembered match, or else
   * the first new model (which the handler picked), or null for no models.
   */
  function PopulatedSelection(models: seq<WorkspaceInfoModel>, infos: seq<WorkspaceInfo>, active: Option<string>)
    : (r: WorkspaceInfoModel?)
    requires |models| == |infos|
    ensures models == [] <==> r == null
    ensures r != null ==> r in models
  {
    match LastMatch(infos, active)
    case Some(j) => models[j]
    case None => if models == [] then null else models[0]
  }

  /** The server paths of a workspace's working folders, one per folder, in order. */
  function ServerItems(folders: seq<WorkingFolder>): (r: seq<string>)
    ensures |r| == |folders| && forall j :: 0 <= j < |folders| ==> r[j] == folders[j].serverItem
  {
    if folders == [] then [] else [folders[0].serverItem] + ServerItems(folders[1..])
  }

  function AsSeq(o: Option<string>): seq<string> {
    if o.Some? then [o.value] else []
  }

  // ---------------------------------------------------------------------
  // The view model

  class TeamPilgrimServiceModel {
    var projectCollectionModels: seq<ProjectCollectionServiceModel>
    var workspaceInfoModels: seq<WorkspaceInfoModel>
    var connecting: bool
    var connectingServer: Option<string>
    var connectedStatus: CompletionStatus
    var connectedError: Option<Failure>
    var activeProjectCollectionModel: ProjectCollectionServiceModel?
    var selectedWorkspaceInfoModel: WorkspaceInfoModel?
    var selectedWorkspaceModel: WorkspaceServiceModel?
    var notifications: seq<Property>
    var populateRequests: seq<string>
    /** The provider's `TryGetWorkspace`, None when it fails. */
    const tryGetWorkspace: (WorkspaceInfo, TfsCollection) -> Option<Workspace>

    /**
     * The active collection is the first collection model (null when there
     * is none), and a non-empty workspace list always has a selection that is
     * one of its members, an empty one none.
     */
    predicate Valid()
      reads this
    {
      && activeProjectCollectionModel == FirstOrDefault(projectCollectionModels)
      && selectedWorkspaceInfoModel == SelectionAfterChange(workspaceInfoModels, selectedWorkspaceInfoModel)
    }

    /** The workspace the provider finds for `model` in the first collection. */
    function FoundWorkspace(model: WorkspaceInfoModel): Option<Workspace>
      reads this
      requires projectCollectionModels != []
    {
      tryGetWorkspace(model.info, projectCollectionModels[0].collection)
    }

    /**
     * The selected workspace model after a load that found `found`: a model
     * of that workspace in the active collection, or `before` when nothing
     * was found.
     */
    predicate ShowsWorkspace(found: Option<Workspace>, before: WorkspaceServiceModel?)
      reads this
    {
      if found.Some? then
        selectedWorkspaceModel != null && selectedWorkspaceModel.workspace == found.value
        && selectedWorkspaceModel.collectionModel == activeProjectCollectionModel
      else selectedWorkspaceModel == before
    }

    /** `activeDomainUri` is the domain URI of the host's active project context, None when it or the context is null. */
    constructor (activeDomainUri: Option<string>, tryGetWorkspace: (WorkspaceInfo, TfsCollection) -> Option<Workspace>)
      ensures Valid()
      ensures projectCollectionModels == [] && workspaceInfoModels == []
      ensures !connecting && connectingServer == None && connectedStatus == CompletionStatus(0) && connectedError == None
      ensures selectedWorkspaceModel == null && notifications == []
      ensures populateRequests == AsSeq(activeDomainUri)
      ensures this.tryGetWorkspace == tryGetWorkspace
    {
      projectCollectionModels := [];
      workspaceInfoModels := [];
      connecting := false;
      connectingServer := None;
      connectedStatus := CompletionStatus(0);
      connectedError := None;
      activeProjectCollectionModel := null;
      selectedWorkspaceInfoModel := null;
      selectedWorkspaceModel := null;
      notifications := [];
      populateRequests := AsSeq(activeDomainUri);
      this.tryGetWorkspace := tryGetWorkspace;
    }

    // --- change-only setters

    method SetConnecting(value: bool)
      modifies this`connecting, this`notifications
      ensures connecting == value
      ensures notifications == old(notifications) + Assigned(old(connecting), value, Connecting)
    {
      if connecting == value {
        return;
      }
      connecting := value;
      notifications := notifications + [Connecting];
    }

    method SetConnectingServer(value: Option<string>)
      modifies this`connectingServer, this`notifications
      ensures connectingServer == value
      ensures notifications == old(notifications) + Assigned(old(connectingServer), value, ConnectingServer)
    {
      if connectingServer == value {
        return;
      }
      connectingServer := value;
      notifications := notifications + [ConnectingServer];
    }

    method SetConnectedStatus(value: CompletionStatus)
      modifies this`connectedStatus, this`notifications
      ensures connectedStatus == value
      ensures notifications == old(notifications) + Assigned(old(connectedStatus), value, ConnectedStatus)
    {
      if connectedStatus == value {
        return;
      }
      connectedStatus := value;
      notifications := notifications + [ConnectedStatus];
    }

    method SetConnectedError(value: Option<Failure>)
      modifies this`connectedError, this`notifications
      ensures connectedError == value
      ensures notifications == old(notifications) + Assigned(old(connectedError), value, ConnectedError)
    {
      if connectedError == value {
        return;
      }
      connectedError := value;
      notifications := notifications + [ConnectedError];
    }

    method SetActiveProjectCollectionModel(value: ProjectCollectionServiceModel?)
      modifies this`activeProjectCollectionModel, this`notifications
      ensures activeProjectCollectionModel == value
      ensures notifications == old(notifications)
                               + Assigned(old(activeProjectCollectionModel), value, ActiveProjectCollectionModel)
    {
      if activeProjectCollectionModel == value {
        return;
      }
      activeProjectCollectionModel := value;
      notifications := notifications + [ActiveProjectCollectionModel];
    }

    method SetSelectedWorkspaceModel(value: WorkspaceServiceModel?)
      modifies this`selectedWorkspaceModel, this`notifications
      ensures selectedWorkspaceModel == value
      ensures notifications == old(notifications) + Assigned(old(selectedWorkspaceModel), value, SelectedWorkspaceModel)
    {
      if selectedWorkspaceModel == value {
        return;
      }
      selectedWorkspaceModel := value;
      notifications := notifications + [SelectedWorkspaceModel];
    }

    /**
     * Opens the workspace of the selected workspace info in the first
     * collection; the selected workspace model is replaced only when the
     * lookup succeeds.
     */
    method LoadWorkspaceModel(info: WorkspaceInfoModel)
      requires projectCollectionModels != []
      modifies this`selectedWorkspaceModel, this`notifications
      ensures ShowsWorkspace(FoundWorkspace(info), old(selectedWorkspaceModel))
      ensures FoundWorkspace(info).Some? ==> fresh(selectedWorkspaceModel)
      ensures notifications == old(notifications) + (if FoundWorkspace(info).Some? then [SelectedWorkspaceModel] else [])
    {
      var projectCollectionModel := projectCollectionModels[0];
      var workspace := tryGetWorkspace(info.info, projectCollectionModel.collection);
      if workspace.Some? {
        var model := new WorkspaceServiceModel(activeProjectCollectionModel, workspace.value);
        SetSelectedWorkspaceModel(model);
      }
    }

    /**
     * The selected workspace info setter: change-only; a new non-null
     * selection loads its workspace before the change is announced.
     */
    method SetSelectedWorkspaceInfoModel(value: WorkspaceInfoModel?)
      requires value != null && value != selectedWorkspaceInfoModel ==> projectCollectionModels != []
      modifies this`selectedWorkspaceInfoModel, this`selectedWorkspaceModel, this`notifications
      ensures selectedWorkspaceInfoModel == value
      ensures value == old(selectedWorkspaceInfoModel) ==>
                selectedWorkspaceModel == old(selectedWorkspaceModel) && notifications == old(notifications)
      ensures value == null && value != old(selectedWorkspaceInfoModel) ==>
                selectedWorkspaceModel == old(selectedWorkspaceModel)
                && notifications == old(notifications) + [SelectedWorkspaceInfoModel]
      ensures value != null && value != old(selectedWorkspaceInfoModel) ==>
                && ShowsWorkspace(FoundWorkspace(value), old(selectedWorkspaceModel))
                && (FoundWorkspace(value).Some? ==> fresh(selectedWorkspaceModel))
                && notifications == old(notifications) + SelectionNotifications(value, FoundWorkspace(value))
    {
      if selectedWorkspaceInfoModel == value {
        return;
      }
      selectedWorkspaceInfoModel := value;
      if selectedWorkspaceInfoModel != null {
        LoadWorkspaceModel(selectedWorkspaceInfoModel);
      }
      notifications := notifications + [SelectedWorkspaceInfoModel];
    }

    // --- connection events

    /** The host's `ServerConnecting` event; `collectionName` is None when it names no collection. */
    method OnServerConnecting(collectionName: Option<string>)
      modifies this`connecting, this`connectingServer, this`notifications
      ensures connecting && connectingServer == collectionName
      ensures notifications == old(notifications) + Assigned(old(connecting), true, Connecting)
                               + Assigned(old(connectingServer), collectionName, ConnectingServer)
    {
      SetConnecting(true);
      SetConnectingServer(collectionName);
    }

    /** The host's `ServerConnected` event. */
    method OnServerConnected(collectionName: Option<string>, error: Option<Failure>, status: CompletionStatus)
      modifies this`connecting, this`connectingServer, this`connectedError, this`connectedStatus, this`notifications
      ensures !connecting && connectingServer == collectionName
      ensures connectedError == error && connectedStatus == status
      ensures notifications == old(notifications) + Assigned(old(connecting), false, Connecting)
                               + Assigned(old(connectingServer), collectionName, ConnectingServer)
                               + Assigned(old(connectedError), error, ConnectedError)
                               + Assigned(old(connectedStatus), status, ConnectedStatus)
    {
      SetConnecting(false);
      SetConnectingServer(collectionName);
      SetConnectedError(error);
      SetConnectedStatus(status);
    }

    // --- the observable collections and their handlers

    method ProjectCollectionModelsOnCollectionChanged()
      modifies this`activeProjectCollectionModel, this`notifications
      ensures activeProjectCollectionModel == FirstOrDefault(projectCollectionModels)
      ensures notifications == old(notifications) + Assigned(old(activeProjectCollectionModel),
                                FirstOrDefault(projectCollectionModels), ActiveProjectCollectionModel)
    {
      SetActiveProjectCollectionModel(FirstOrDefault(projectCollectionModels));
    }

    method WorkspaceInfoModelsOnCollectionChanged()
      requires workspaceInfoModels != [] && selectedWorkspaceInfoModel !in workspaceInfoModels ==> projectCollectionModels != []
      modifies this`selectedWorkspaceInfoModel, this`selectedWorkspaceModel, this`notifications
      ensures selectedWorkspaceInfoModel == SelectionAfterChange(workspaceInfoModels, old(selectedWorkspaceInfoModel))
      ensures selectedWorkspaceInfoModel == old(selectedWorkspaceInfoModel) ==>
                selectedWorkspaceModel == old(selectedWorkspaceModel) && notifications == old(notifications)
      ensures selectedWorkspaceInfoModel == null && old(selectedWorkspaceInfoModel) != null ==>
                selectedWorkspaceModel == old(selectedWorkspaceModel)
                && notifications == old(notifications) + [SelectedWorkspaceInfoModel]
      ensures selectedWorkspaceInfoModel != null && selectedWorkspaceInfoModel != old(selectedWorkspaceInfoModel) ==>
                && ShowsWorkspace(FoundWorkspace(selectedWorkspaceInfoModel), old(selectedWorkspaceModel))
                && (FoundWorkspace(selectedWorkspaceInfoModel).Some? ==> fresh(selectedWorkspaceModel))
                && notifications == old(notifications)
                                    + SelectionNotifications(selectedWorkspaceInfoModel, FoundWorkspace(selectedWorkspaceInfoModel))
    {
      if |workspaceInfoModels| > 0 {
        if selectedWorkspaceInfoModel == null || selectedWorkspaceInfoModel !in workspaceInfoModels {
          SetSelectedWorkspaceInfoModel(workspaceInfoModels[0]);
        }
      } else {
        SetSelectedWorkspaceInfoModel(null);
      }
    }

    method ClearProjectCollectionModels()
      requires Valid()
      modifies this`projectCollectionModels, this`activeProjectCollectionModel, this`notifications
      ensures Valid()
      ensures projectCollectionModels == [] && activeProjectCollectionModel == null
      ensures notifications == old(notifications) + Assigned(old(activeProjectCollectionModel), null, ActiveProjectCollectionModel)
    {
      projectCollectionModels := [];
      ProjectCollectionModelsOnCollectionChanged();
    }

    method AddProjectCollectionModel(model: ProjectCollectionServiceModel)
      requires Valid()
      modifies this`projectCollectionModels, this`activeProjectCollectionModel, this`notifications
      ensures Valid()
      ensures projectCollectionModels == old(projectCollectionModels) + [model]
      ensures activeProjectCollectionModel == projectCollectionModels[0]
      ensures notifications == old(notifications)
                               + (if old(projectCollectionModels) == [] then [ActiveProjectCollectionModel] else [])
    {
      projectCollectionModels := projectCollectionModels + [model];
      ProjectCollectionModelsOnCollectionChanged();
    }

    method ClearWorkspaceInfoModels()
      requires Valid()
      modifies this`workspaceInfoModels, this`selectedWorkspaceInfoModel, this`selectedWorkspaceModel, this`notifications
      ensures Valid()
      ensures workspaceInfoModels == [] && selectedWorkspaceInfoModel == null
      ensures selectedWorkspaceModel == old(selectedWorkspaceModel)
      ensures notifications == old(notifications)
                               + (if old(selectedWorkspaceInfoModel) != null then [SelectedWorkspaceInfoModel] else [])
    {
      workspaceInfoModels := [];
      WorkspaceInfoModelsOnCollectionChanged();
    }

    /** Adding to an empty list selects the new model; otherwise the selection stays. */
    method AddWorkspaceInfoModel(model: WorkspaceInfoModel)
      requires Valid()
      requires workspaceInfoModels == [] ==> projectCollectionModels != []
      modifies this`workspaceInfoModels, this`selectedWorkspaceInfoModel, this`selectedWorkspaceModel, this`notifications
      ensures Valid()
      ensures workspaceInfoModels == old(workspaceInfoModels) + [model]
      ensures old(workspaceInfoModels) == [] ==>
                && selectedWorkspaceInfoModel == model
                && ShowsWorkspace(FoundWorkspace(model), old(selectedWorkspaceModel))
                && (FoundWorkspace(model).Some? ==> fresh(selectedWorkspaceModel))
                && notifications == old(notifications) + SelectionNotifications(model, FoundWorkspace(model))
      ensures old(workspaceInfoModels) != [] ==>
                && selectedWorkspaceInfoModel == old(selectedWorkspaceInfoModel)
                && selectedWorkspaceModel == old(selectedWorkspaceModel) && notifications == old(notifications)
    {
      workspaceInfoModels := workspaceInfoModels + [model];
      WorkspaceInfoModelsOnCollectionChanged();
    }

    // --- the host's context and the populate worker

    /** Marks as active exactly the project models named like the active project. */
    method MarkActiveProject(collectionModel: ProjectCollectionServiceModel, projectName: string)
      modifies set p: ProjectServiceModel | p in collectionModel.projectModels
      ensures forall p :: p in collectionModel.projectModels ==> p.isActive == (p.projectName == projectName)
    {
      var models := collectionModel.projectModels;
      var k := 0;
      while k < |models|
        invariant 0 <= k <= |models|
        invariant collectionModel.projectModels == models
        invariant forall j :: 0 <= j < k ==> models[j].isActive == (models[j].projectName == projectName)
      {
        models[k].isActive := models[k].projectName == projectName;
        k := k + 1;
      }
    }

    /**
     * The host's `ContextChanged` event. A collection change either asks for
     * a populate of the new domain or, with no new domain, clears the
     * collection models; a team-project change marks the project models of
     * the active collection. `activeProjectName` is the project name of the
     * host's active context.
     */
    method OnContextChanged(e: ContextChangedEvent, activeProjectName: string)
      requires Valid()
      requires !e.teamProjectCollectionChanged && e.teamProjectChanged ==> activeProjectCollectionModel != null
      modifies this`projectCollectionModels, this`activeProjectCollectionModel, this`notifications, this`populateRequests
      modifies if activeProjectCollectionModel == null then {}
               else set p: ProjectServiceModel | p in activeProjectCollectionModel.projectModels
      ensures Valid()
      ensures e.teamProjectCollectionChanged && e.newDomainUri.None? ==>
                projectCollectionModels == [] && activeProjectCollectionModel == null
                && populateRequests == old(populateRequests)
      ensures e.teamProjectCollectionChanged && e.newDomainUri.Some? ==>
                projectCollectionModels == old(projectCollectionModels)
                && populateRequests == old(populateRequests) + [e.newDomainUri.value]
      ensures !e.teamProjectCollectionChanged ==>
                projectCollectionModels == old(projectCollectionModels) && populateRequests == old(populateRequests)
      ensures !e.teamProjectCollectionChanged && e.teamProjectChanged ==>
                forall p :: p in activeProjectCollectionModel.projectModels ==> p.isActive == (p.projectName == activeProjectName)
      ensures (e.teamProjectCollectionChanged || !e.teamProjectChanged) && old(activeProjectCollectionModel) != null ==>
                forall p :: p in old(activeProjectCollectionModel.projectModels) ==> p.isActive == old(p.isActive)
      ensures e.teamProjectCollectionChanged && e.newDomainUri.None? ==>
                notifications == old(notifications) + Assigned(old(activeProjectCollectionModel), null, ActiveProjectCollectionModel)
      ensures !(e.teamProjectCollectionChanged && e.newDomainUri.None?) ==> notifications == old(notifications)
    {
      if e.teamProjectCollectionChanged {
        if e.newDomainUri.None? {
          ClearProjectCollectionModels();
        } else {
          populateRequests := populateRequests + [e.newDomainUri.value];
        }
      } else if e.teamProjectChanged {
        MarkActiveProject(activeProjectCollectionModel, activeProjectName);
      }
    }

    /** The refresh command asks for a populate of the active context's domain, when there is one. */
    method Refresh(activeDomainUri: Option<string>)
      modifies this`populateRequests
      ensures populateRequests == old(populateRequests) + AsSeq(activeDomainUri)
    {
      if activeDomainUri.Some? {
        populateRequests := populateRequests + [activeDomainUri.value];
      }
    }

    /**
     * The sequential part of the background populate. `collectionLookup` is
     * the result of `TryGetCollection` (None when it fails, Some(None) when it
     * yields null), `workspaceLookup` that of `TryGetLocalWorkspaceInfos`, and
     * `activeWorkspace` the qualified name of the host's active workspace.
     */
    method Populate(collectionLookup: Option<Option<TfsCollection>>, workspaceLookup: Option<seq<WorkspaceInfo>>,
                    activeWorkspace: Option<string>)
      requires Valid()
      modifies this`projectCollectionModels, this`activeProjectCollectionModel, this`workspaceInfoModels,
               this`selectedWorkspaceInfoModel, this`selectedWorkspaceModel, this`notifications
      ensures Valid()
      ensures collectionLookup.None? ==>
                projectCollectionModels == old(projectCollectionModels) && workspaceInfoModels == old(workspaceInfoModels)
      ensures collectionLookup == Some(None) ==>
                projectCollectionModels == [] && workspaceInfoModels == old(workspaceInfoModels)
      ensures collectionLookup.Some? && collectionLookup.value.Some? ==>
                && |projectCollectionModels| == 1 && fresh(projectCollectionModels[0])
                && projectCollectionModels[0].collection == collectionLookup.value.value
                && activeProjectCollectionModel == projectCollectionModels[0]
      ensures (collectionLookup.Some? && collectionLookup.value.Some? && workspaceLookup.Some?) ==>
                && |workspaceInfoModels| == |workspaceLookup.value|
                && (forall j :: 0 <= j < |workspaceInfoModels| ==>
                      fresh(workspaceInfoModels[j]) && workspaceInfoModels[j].info == workspaceLookup.value[j])
                && selectedWorkspaceInfoModel == PopulatedSelection(workspaceInfoModels, workspaceLookup.value, activeWorkspace)
      ensures !(collectionLookup.Some? && collectionLookup.value.Some? && workspaceLookup.Some?) ==>
                && workspaceInfoModels == old(workspaceInfoModels)
                && selectedWorkspaceInfoModel == old(selectedWorkspaceInfoModel)
                && selectedWorkspaceModel == old(selectedWorkspaceModel)
      ensures collectionLookup.None? ==> notifications == old(notifications)
      ensures collectionLookup == Some(None) ==>
                notifications == old(notifications) + Assigned(old(activeProjectCollectionModel), null, ActiveProjectCollectionModel)
      ensures collectionLookup.Some? && collectionLookup.value.Some? && workspaceLookup.None? ==>
                notifications == old(notifications) + Assigned(old(activeProjectCollectionModel), null, ActiveProjectCollectionModel)
                                 + [ActiveProjectCollectionModel]
      ensures (collectionLookup.Some? && collectionLookup.value.Some? && workspaceLookup.Some?) ==>
                var cleared := old(notifications)
                               + Assigned(old(activeProjectCollectionModel), null, ActiveProjectCollectionModel)
                               + [ActiveProjectCollectionModel]
                               + (if old(selectedWorkspaceInfoModel) != null then [SelectedWorkspaceInfoModel] else []);
                && (workspaceLookup.value == [] ==>
                      selectedWorkspaceModel == old(selectedWorkspaceModel) && notifications == cleared)
                && (workspaceLookup.value != [] ==>
                      var first := workspaceInfoModels[0];
                      var last := selectedWorkspaceInfoModel;
                      var reloaded := last != first && FoundWorkspace(last).Some?;
                      && (reloaded ==> fresh(selectedWorkspaceModel) && ShowsWorkspace(FoundWorkspace(last), null))
                      && (!reloaded ==> (FoundWorkspace(first).Some? ==> fresh(selectedWorkspaceModel))
                                        && ShowsWorkspace(FoundWorkspace(first), old(selectedWorkspaceModel)))
                      && notifications == cleared + SelectionNotifications(first, FoundWorkspace(first))
                                          + (if last != first then SelectionNotifications(last, FoundWorkspace(last)) else []))
    {
      if collectionLookup.None? {
        return;
      }
      ClearProjectCollectionModels();
      if collectionLookup.value.None? {
        return;
      }
      var collectionModel := new ProjectCollectionServiceModel(collectionLookup.value.value);
      AddProjectCollectionModel(collectionModel);
      if workspaceLookup.None? {
        return;
      }
      RebuildWorkspaceInfoModels(workspaceLookup.value, activeWorkspace);
    }

    /**
     * The workspace part of a populate: the list is cleared and refilled with
     * one new model per workspace info, in order; then the model of the last
     * info named like the active workspace, if any, is selected. Adding the
     * first model selects it and loads its workspace; selecting the match
     * loads its workspace once more when it is another model.
     */
    method RebuildWorkspaceInfoModels(infos: seq<WorkspaceInfo>, activeWorkspace: Option<string>)
      requires Valid() && projectCollectionModels != []
      modifies this`workspaceInfoModels, this`selectedWorkspaceInfoModel, this`selectedWorkspaceModel, this`notifications
      ensures Valid()
      ensures |workspaceInfoModels| == |infos|
      ensures forall j :: 0 <= j < |workspaceInfoModels| ==>
                fresh(workspaceInfoModels[j]) && workspaceInfoModels[j].info == infos[j]
      ensures selectedWorkspaceInfoModel == PopulatedSelection(workspaceInfoModels, infos, activeWorkspace)
      ensures infos == [] ==>
                && selectedWorkspaceModel == old(selectedWorkspaceModel)
                && notifications == old(notifications)
                                    + (if old(selectedWorkspaceInfoModel) != null then [SelectedWorkspaceInfoModel] else [])
      ensures infos != [] ==>
                var first := workspaceInfoModels[0];
                var last := selectedWorkspaceInfoModel;
                var reloaded := last != first && FoundWorkspace(last).Some?;
                && (reloaded ==> fresh(selectedWorkspaceModel) && ShowsWorkspace(FoundWorkspace(last), null))
                && (!reloaded ==> (FoundWorkspace(first).Some? ==> fresh(selectedWorkspaceModel))
                                  && ShowsWorkspace(FoundWorkspace(first), old(selectedWorkspaceModel)))
                && notifications == old(notifications)
                                    + (if old(selectedWorkspaceInfoModel) != null then [SelectedWorkspaceInfoModel] else [])
                                    + SelectionNotifications(first, FoundWorkspace(first))
                                    + (if last != first then SelectionNotifications(last, FoundWorkspace(last)) else [])
    {
      ClearWorkspaceInfoModels();
      var selected := AppendWorkspaceInfoModels(infos, activeWorkspace);
      if selected != null {
        SetSelectedWorkspaceInfoModel(selected);
      }
    }

    /**
     * The populate loop on an emptied list: one new model per workspace
     * info, added in order; returns the model of the last info named like
     * the active workspace, null when there is none.
     */
    method AppendWorkspaceInfoModels(infos: seq<WorkspaceInfo>, activeWorkspace: Option<string>)
      returns (selected: WorkspaceInfoModel?)
      requires Valid() && projectCollectionModels != [] && workspaceInfoModels == []
      modifies this`workspaceInfoModels, this`selectedWorkspaceInfoModel, this`selectedWorkspaceModel, this`notifications
      ensures Valid()
      ensures |workspaceInfoModels| == |infos|
      ensures forall j :: 0 <= j < |workspaceInfoModels| ==>
                fresh(workspaceInfoModels[j]) && workspaceInfoModels[j].info == infos[j]
      ensures selectedWorkspaceInfoModel == if infos == [] then null else workspaceInfoModels[0]
      ensures LastMatch(infos, activeWorkspace).None? <==> selected == null
      ensures LastMatch(infos, activeWorkspace).Some? ==> selected == workspaceInfoModels[LastMatch(infos, activeWorkspace).value]
      ensures infos == [] ==> selectedWorkspaceModel == old(selectedWorkspaceModel) && notifications == old(notifications)
      ensures infos != [] ==>
                && ShowsWorkspace(FoundWorkspace(workspaceInfoModels[0]), old(selectedWorkspaceModel))
                && (FoundWorkspace(workspaceInfoModels[0]).Some? ==> fresh(selectedWorkspaceModel))
                && notifications == old(notifications)
                                    + SelectionNotifications(workspaceInfoModels[0], FoundWorkspace(workspaceInfoModels[0]))
    {
      selected := null;
      var k := 0;
      while k < |infos|
        invariant 0 <= k <= |infos|
        invariant activeProjectCollectionModel == FirstOrDefault(projectCollectionModels)
        invariant |workspaceInfoModels| == k
        invariant forall j :: 0 <= j < k ==> fresh(workspaceInfoModels[j]) && workspaceInfoModels[j].info == infos[j]
        invariant selectedWorkspaceInfoModel == if k == 0 then null else workspaceInfoModels[0]
        invariant LastMatch(infos[..k], activeWorkspace).None? <==> selected == null
        invariant LastMatch(infos[..k], activeWorkspace).Some? ==>
                    selected == workspaceInfoModels[LastMatch(infos[..k], activeWorkspace).value]
        invariant k == 0 ==> selectedWorkspaceModel == old(selectedWorkspaceModel) && notifications == old(notifications)
        invariant k > 0 ==>
                    && ShowsWorkspace(FoundWorkspace(workspaceInfoModels[0]), old(selectedWorkspaceModel))
                    && (FoundWorkspace(workspaceInfoModels[0]).Some? ==> fresh(selectedWorkspaceModel))
                    && notifications == old(notifications)
                                        + SelectionNotifications(workspaceInfoModels[0], FoundWorkspace(workspaceInfoModels[0]))
      {
        var model := new WorkspaceInfoModel(infos[k]);
        AddWorkspaceInfoModel(model);
        if activeWorkspace.Some? && activeWorkspace.value == infos[k].qualifiedName {
          selected := model;
        }
        LastMatchStep(infos, k, activeWorkspace);
        k := k + 1;
      }
      assert infos[..k] == infos;
    }

    /**
     * The resolve-conflicts command: nothing without a selected workspace;
     * otherwise the workspace and the server path of each of its working
     * folders, recursively and not after a check-in.
     */
    method ShowResolveConflictManager() returns (request: Option<ResolveConflictsRequest>)
      ensures request.None? <==> selectedWorkspaceModel == null
      ensures request.Some? ==>
                && request.value.workspace == selectedWorkspaceModel.workspace
                && request.value.serverPaths == ServerItems(selectedWorkspaceModel.workspace.folders)
                && request.value.recursive && !request.value.afterCheckin
    {
      if selectedWorkspaceModel == null {
        return None;
      }
      var workspace := selectedWorkspaceModel.workspace;
      var paths := ServerItems(workspace.folders);
      return Some(ResolveConflictsRequest(workspace, paths, true, false));
    }
  }
}
