/**
 * The lifecycle of a project collection node in the Team Pilgrim explorer:
 * it starts Invalid with no project models, moves to Fetching when its
 * populate work item is queued, and when the fetch completes becomes Active
 * with one project model per fetched project (each then activated) or falls
 * back to Invalid.
 */
module CollectionModel {
  import opened Wrappers

  datatype ModelState = Invalid | Fetching | Active

  /** A team project as the provider returns it. */
  datatype PilgrimProject = PilgrimProject(name: string)

  /** What can happen to a collection node, in the order it happens. */
  datatype Step =
    | Activation(queued: bool)   // OnActivated; `queued` is what QueueUserWorkItem returned
    | FetchSucceeded             // the callback with the provider's projects
    | FetchFailed                // the callback when the provider failed

  /** The state after one step. */
  function Next(s: ModelState, step: Step): (r: ModelState)
    ensures step == Activation(false) ==> r == s
    ensures step == Activation(true) ==> r == Fetching
    ensures step == FetchSucceeded <==> r == Active && step != Activation(false)
    ensures step == FetchFailed ==> r == Invalid
  {
    match step
    case Activation(queued) => if queued then Fetching else s
    case FetchSucceeded => Active
    case FetchFailed => Invalid
  }

  /** The state after a sequence of steps. */
  function Run(s: ModelState, steps: seq<Step>): ModelState {
    if steps == [] then s else Next(Run(s, steps[..|steps| - 1]), steps[|steps| - 1])
  }

  /** Whether the last completed fetch among `steps` succeeded. */
  predicate LastFetchSucceeded(steps: seq<Step>) {
    exists k :: 0 <= k < |steps| && steps[k] == FetchSucceeded && forall j :: k < j < |steps| ==> steps[j] != FetchFailed
  }

  /**
   * A node that starts Invalid is Active only if some fetch succeeded and no
   * fetch failed after it; activation alone never makes it Active.
   */
  lemma {:induction false} ActiveOnlyAfterSuccessfulFetch(steps: seq<Step>)
    ensures Run(Invalid, steps) == Active ==> LastFetchSucceeded(steps)
  {
    if steps != [] && Run(Invalid, steps) == Active {
      var init, last := steps[..|steps| - 1], steps[|steps| - 1];
      if last == FetchSucceeded {
        assert steps[|steps| - 1] == FetchSucceeded;
      } else {
        assert last == Activation(false);
        ActiveOnlyAfterSuccessfulFetch(init);
        var k :| 0 <= k < |init| && init[k] == FetchSucceeded && forall j :: k < j < |init| ==> init[j] != FetchFailed;
        assert steps[k] == FetchSucceeded;
      }
    }
  }

  /** Once Active, only a failed fetch leaves the state (a queued activation moves it to Fetching). */
  lemma {:induction false} ActiveIsKeptByUnqueuedActivation(steps: seq<Step>)
    requires forall j :: 0 <= j < |steps| ==> steps[j] == Activation(false) || steps[j] == FetchSucceeded
    ensures Run(Active, steps) == Active
  {
    if steps != [] {
      ActiveIsKeptByUnqueuedActivation(steps[..|steps| - 1]);
    }
  }

  /** A project node under the collection. */
  class PilgrimProjectModel {
    const project: PilgrimProject
    var activations: nat

    constructor (project: PilgrimProject)
      ensures this.project == project && activations == 0
    {
      this.project := project;
      activations := 0;
    }

    method Activate()
      modifies this`activations
      ensures activations == old(activations) + 1
    {
      activations := activations + 1;
    }
  }

  /** What the collection node records, in order: its state changes, project-list changes and activations of its projects. */
  datatype Event =
    | StateSet(state: ModelState)
    | ProjectModelsChanged
    | ProjectActivated(model: PilgrimProjectModel)

  function ActivationEvents(models: seq<PilgrimProjectModel>): (r: seq<Event>)
    ensures |r| == |models| && forall j :: 0 <= j < |models| ==> r[j] == ProjectActivated(models[j])
  {
    if models == [] then [] else ActivationEvents(models[..|models| - 1]) + [ProjectActivated(models[|models| - 1])]
  }

  class PilgrimProjectCollectionModel {
    var state: ModelState
    var projectModels: array<PilgrimProjectModel>
    var log: seq<Event>

    constructor ()
      ensures state == Invalid && projectModels.Length == 0
      ensures log == [StateSet(Invalid)]
    {
      state := Invalid;
      projectModels := new PilgrimProjectModel[0];
      log := [StateSet(Invalid)];
    }

    /** Moves to Fetching only when the populate work item was queued. */
    method OnActivated(queued: bool)
      modifies this`state, this`log
      ensures state == Next(old(state), Activation(queued))
      ensures log == old(log) + (if queued then [StateSet(Fetching)] else [])
    {
      if queued {
        state := Fetching;
        log := log + [StateSet(Fetching)];
      }
    }

    /** The `ProjectModels` setter: assigning the same array is a no-op. */
    method SetProjectModels(value: array<PilgrimProjectModel>)
      modifies this`projectModels, this`log
      ensures projectModels == value
      ensures log == old(log) + (if old(projectModels) == value then [] else [ProjectModelsChanged])
    {
      if projectModels == value {
        return;
      }
      projectModels := value;
      log := log + [ProjectModelsChanged];
    }

    /** Activates each of `models` once, in order, recording each activation. */
    method ActivateEach(models: array<PilgrimProjectModel>)
      requires forall i, j :: 0 <= i < j < models.Length ==> models[i] != models[j]
      modifies this`log, set j | 0 <= j < models.Length :: models[j]
      ensures forall j :: 0 <= j < models.Length ==> models[j].activations == old(models[j].activations) + 1
      ensures log == old(log) + ActivationEvents(models[..])
    {
      var n := 0;
      while n < models.Length
        invariant 0 <= n <= models.Length
        invariant forall j :: 0 <= j < models.Length ==>
                    models[j].activations == old(models[j].activations) + (if j < n then 1 else 0)
        invariant log == old(log) + ActivationEvents(models[..n])
      {
        models[n].Activate();
        assert models[..n + 1][..n] == models[..n];
        log := log + [ProjectActivated(models[n])];
        n := n + 1;
      }
      assert models[..n] == models[..];
    }

    /**
     * The fetch callback; `fetched` is the provider's projects, None when the
     * provider failed. On success the new project models, one per project in
     * order, replace the old ones, the node becomes Active, and then each new
     * model is activated exactly once. On failure the node becomes Invalid and
     * keeps its project models.
     */
    method PopulateCallback(fetched: Option<seq<PilgrimProject>>)
      modifies this`state, this`projectModels, this`log
      ensures state == Next(old(state), if fetched.Some? then FetchSucceeded else FetchFailed)
      ensures fetched.None? ==> projectModels == old(projectModels) && log == old(log) + [StateSet(Invalid)]
      ensures fetched.Some? ==>
                && fresh(projectModels)
                && projectModels.Length == |fetched.value|
                && (forall j :: 0 <= j < projectModels.Length ==>
                      fresh(projectModels[j]) && projectModels[j].project == fetched.value[j]
                      && projectModels[j].activations == 1)
                && (forall i, j :: 0 <= i < j < projectModels.Length ==> projectModels[i] != projectModels[j])
                && log == old(log) + [ProjectModelsChanged, StateSet(Active)] + ActivationEvents(projectModels[..])
    {
      if fetched.None? {
        state := Invalid;
        log := log + [StateSet(Invalid)];
        return;
      }
      var models := NewProjectModels(fetched.value);
      SetProjectModels(models);
      state := Active;
      log := log + [StateSet(Active)];
      ActivateEach(models);
    }
  }

  /** `projects.Select(project => new PilgrimProjectModel(...)).ToArray()`. */
  method NewProjectModels(projects: seq<PilgrimProject>) returns (models: array<PilgrimProjectModel>)
    ensures fresh(models) && models.Length == |projects|
    ensures forall j :: 0 <= j < models.Length ==>
              fresh(models[j]) && models[j].project == projects[j] && models[j].activations == 0
    ensures forall i, j :: 0 <= i < j < models.Length ==> models[i] != models[j]
  {
    var created: seq<PilgrimProjectModel> := [];
    var k := 0;
    while k < |projects|
      invariant 0 <= k <= |projects| && |created| == k
      invariant forall j :: 0 <= j < k ==> fresh(created[j]) && created[j].project == projects[j] && created[j].activations == 0
      invariant forall i, j :: 0 <= i < j < k ==> created[i] != created[j]
    {
      var model := new PilgrimProjectModel(projects[k]);
      created := created + [model];
      k := k + 1;
    }
    models := new PilgrimProjectModel[|created|](j requires 0 <= j < |created| => created[j]);
  }
}
