/**
 * The TFS service: a cache of authenticated team project collections keyed
 * by the string form of their URI, and the projections that wrap registered
 * collections and work-item-store projects for the explorer.
 */
module TfsService {

  /** A URI; `text` is what `Uri.ToString()` gives. */
  datatype Uri = Uri(text: string)

  /** A team project in a collection's work item store. */
  datatype TfsProject = TfsProject(name: string)

  /** A collection registered with the local TFS client. */
  datatype RegisteredCollection = RegisteredCollection(name: string, uri: Uri)

  datatype PilgrimProjectCollection = PilgrimProjectCollection(projectCollection: RegisteredCollection)

  datatype PilgrimProject = PilgrimProject(project: TfsProject)

  /** A connection to a team project collection; `projects` is what its work item store lists. */
  class TfsTeamProjectCollection {
    const uri: Uri
    const projects: seq<TfsProject>
    var authentications: nat

    constructor (uri: Uri, projects: seq<TfsProject>)
      ensures this.uri == uri && this.projects == projects && authentications == 0
    {
      this.uri := uri;
      this.projects := projects;
      authentications := 0;
    }

    method Authenticate()
      modifies this`authentications
      ensures authentications == old(authentications) + 1
    {
      authentications := authentications + 1;
    }
  }

  /** The build service wrapper, bound to the collection whose build server it uses. */
  datatype TeamPilgrimBuildService = TeamPilgrimBuildService(collection: TfsTeamProjectCollection)

  /** One wrapper per registered collection, in order. */
  function WrapCollections(registered: seq<RegisteredCollection>): (r: seq<PilgrimProjectCollection>)
    ensures |r| == |registered|
    ensures forall j :: 0 <= j < |r| ==> r[j].projectCollection == registered[j]
  {
    if registered == [] then [] else [PilgrimProjectCollection(registered[0])] + WrapCollections(registered[1..])
  }

  /** One wrapper per work-item-store project, in store order. */
  function WrapProjects(projects: seq<TfsProject>): (r: seq<PilgrimProject>)
    ensures |r| == |projects|
    ensures forall j :: 0 <= j < |r| ==> r[j].project == projects[j]
  {
    if projects == [] then [] else [PilgrimProject(projects[0])] + WrapProjects(projects[1..])
  }

  function UnwrapProjects(wrapped: seq<PilgrimProject>): seq<TfsProject> {
    if wrapped == [] then [] else [wrapped[0].project] + UnwrapProjects(wrapped[1..])
  }

  /** Wrapping loses nothing: unwrapping gives the store's projects back. */
  lemma {:induction false} UnwrapWrapProjects(projects: seq<TfsProject>)
    ensures UnwrapProjects(WrapProjects(projects)) == projects
  {
    if projects != [] {
      UnwrapWrapProjects(projects[1..]);
      assert WrapProjects(projects)[1..] == WrapProjects(projects[1..]);
    }
  }

  class TeamPilgrimService {
    var projectCollectionDictionary: map<string, TfsTeamProjectCollection>
    /** What `TfsTeamProjectCollectionFactory` connects to: the projects the server lists for a collection URI. */
    const server: Uri -> seq<TfsProject>

    /**
     * Every cached collection is stored under the string form of its own URI
     * and has been authenticated exactly once.
     */
    ghost predicate Valid()
      reads this, projectCollectionDictionary.Values
    {
      forall key :: key in projectCollectionDictionary ==>
        projectCollectionDictionary[key].uri.text == key && projectCollectionDictionary[key].authentications == 1
    }

    constructor (server: Uri -> seq<TfsProject>)
      ensures Valid() && projectCollectionDictionary == map[] && this.server == server
    {
      projectCollectionDictionary := map[];
      this.server := server;
    }

    /**
     * `GetOrAdd` keyed by `uri.ToString()`: on a hit the stored collection,
     * with no new connection and no authentication; on a miss a new
     * connection, authenticated once and stored. No entry is ever removed or
     * replaced.
     */
    method GetTfsTeamProjectCollection(uri: Uri) returns (collection: TfsTeamProjectCollection)
      requires Valid()
      modifies this`projectCollectionDictionary
      ensures Valid()
      ensures uri.text in old(projectCollectionDictionary) ==>
                collection == old(projectCollectionDictionary)[uri.text]
                && projectCollectionDictionary == old(projectCollectionDictionary)
      ensures uri.text !in old(projectCollectionDictionary) ==>
                && fresh(collection) && collection.uri == uri && collection.projects == server(uri)
                && collection.authentications == 1
                && projectCollectionDictionary == old(projectCollectionDictionary)[uri.text := collection]
      ensures projectCollectionDictionary[uri.text] == collection
      ensures forall key :: key in old(projectCollectionDictionary) ==>
                key in projectCollectionDictionary
                && projectCollectionDictionary[key] == old(projectCollectionDictionary)[key]
                && projectCollectionDictionary[key].authentications == old(projectCollectionDictionary[key].authentications)
    {
      var key := uri.text;
      if key in projectCollectionDictionary {
        return projectCollectionDictionary[key];
      }
      collection := new TfsTeamProjectCollection(uri, server(uri));
      collection.Authenticate();
      projectCollectionDictionary := projectCollectionDictionary[key := collection];
    }

    /** The registered collections, one wrapper each, in order. */
    method GetPilgrimProjectCollections(registered: seq<RegisteredCollection>)
      returns (collections: seq<PilgrimProjectCollection>)
      ensures |collections| == |registered|
      ensures forall j :: 0 <= j < |collections| ==> collections[j].projectCollection == registered[j]
    {
      collections := WrapCollections(registered);
    }

    /** The projects of the cached collection for `uri`, one wrapper each, in store order. */
    method GetPilgrimProjects(uri: Uri) returns (projects: seq<PilgrimProject>)
      requires Valid()
      modifies this`projectCollectionDictionary
      ensures Valid()
      ensures uri.text in projectCollectionDictionary
      ensures projects == WrapProjects(projectCollectionDictionary[uri.text].projects)
      ensures projectCollectionDictionary == old(projectCollectionDictionary)[uri.text := projectCollectionDictionary[uri.text]]
      ensures uri.text in old(projectCollectionDictionary) ==> projectCollectionDictionary == old(projectCollectionDictionary)
      ensures uri.text !in old(projectCollectionDictionary) ==>
                && projects == WrapProjects(server(uri))
                && fresh(projectCollectionDictionary[uri.text])
                && projectCollectionDictionary[uri.text].uri == uri
                && projectCollectionDictionary[uri.text].authentications == 1
      ensures forall key :: key in old(projectCollectionDictionary) ==>
                projectCollectionDictionary[key].authentications == old(projectCollectionDictionary[key].authentications)
    {
      var collection := GetTfsTeamProjectCollection(uri);
      projects := WrapProjects(collection.projects);
    }

    /** The build service of the cached collection for `uri`. */
    method GetTeamPilgrimBuildService(uri: Uri) returns (service: TeamPilgrimBuildService)
      requires Valid()
      modifies this`projectCollectionDictionary
      ensures Valid()
      ensures uri.text in projectCollectionDictionary
      ensures service.collection == projectCollectionDictionary[uri.text]
      ensures projectCollectionDictionary == old(projectCollectionDictionary)[uri.text := service.collection]
      ensures uri.text in old(projectCollectionDictionary) ==>
                service.collection == old(projectCollectionDictionary)[uri.text]
      ensures uri.text !in old(projectCollectionDictionary) ==>
                && fresh(service.collection) && service.collection.uri == uri
                && service.collection.projects == server(uri) && service.collection.authentications == 1
      ensures forall key :: key in old(projectCollectionDictionary) ==>
                projectCollectionDictionary[key].authentications == old(projectCollectionDictionary[key].authentications)
    {
      var collection := GetTfsTeamProjectCollection(uri);
      service := TeamPilgrimBuildService(collection);
    }
  }

  /**
   * Projects and build service for URIs with the same string form go through
   * one cache entry: the build service is bound to the very collection whose
   * projects were listed, and it was connected and authenticated once.
   */
  method ProjectsAndBuildServiceShareOneCollection(service: TeamPilgrimService, a: Uri, b: Uri)
    returns (projects: seq<PilgrimProject>, build: TeamPilgrimBuildService)
    requires service.Valid() && a.text == b.text
    modifies service`projectCollectionDictionary
    ensures service.Valid()
    ensures projects == WrapProjects(build.collection.projects)
    ensures build.collection.authentications == 1 && build.collection.uri.text == a.text
    ensures service.projectCollectionDictionary == old(service.projectCollectionDictionary)[a.text := build.collection]
    ensures a.text in old(service.projectCollectionDictionary) ==>
              build.collection == old(service.projectCollectionDictionary)[a.text]
    ensures a.text !in old(service.projectCollectionDictionary) ==>
              fresh(build.collection) && build.collection.uri == a
  {
    projects := service.GetPilgrimProjects(a);
    build := service.GetTeamPilgrimBuildService(b);
  }
}
