/** The read side of the Walacor catalog,
    src/walacor_data_tracker/writers/walacor/catalog.py. Every query goes to
    the data-request service of the Walacor SDK, which is not visible here: it
    is a fixed function from a request to the rows it returns. The catalog
    only shapes the requests and post-processes the rows. */
module Catalog {
  import opened Wrappers
  import opened Text

  /** Schema ids of the four lineage tables (schema_builder.py). */
  const ProjectETId: nat := 20000
  const NodeETId: nat := 20001
  const EdgeETId: nat := 20002
  const RunETId: nat := 20003

  /** A returned record: field name to value. */
  type Row = map<string, string>

  /** One field condition of a filter: a value to equal, or `{"$in": [...]}`. */
  datatype Cond = Is(value: string) | In(values: seq<string>)

  /** A filter: field conditions that must all hold, or `{"$or": [...]}` of
      such condition sets. */
  datatype Filter = Where(fields: map<string, Cond>) | Either(alternatives: seq<map<string, Cond>>)

  /** `get_single_record_by_record_id(filter, ETId=..., fromSummary=...)`;
      `fromSummary` is None where the call leaves it out. */
  datatype Request = Request(filter: Filter, etid: nat, fromSummary: Option<bool>)

  type Store = Request -> seq<Row>

  /** Every row has every one of `keys` (a missing one is a KeyError). */
  ghost predicate Have(rows: seq<Row>, keys: set<string>) {
    forall i :: 0 <= i < |rows| ==> keys <= rows[i].Keys
  }

  /** The first row, when there is one, has the field: the project lookups
      read only `prows[0]["UID"]`. */
  predicate FirstHas(rows: seq<Row>, key: string) {
    rows != [] ==> key in rows[0]
  }

  function Lookup(r: Row, k: string): (v: Option<string>)
    ensures v.Some? <==> k in r
    ensures v.Some? ==> v.value == r[k]
  {
    if k in r then Some(r[k]) else None
  }

  /** Python truthiness of an optional string. */
  predicate Truthy(s: Option<string>) {
    s.Some? && s.value != ""
  }

  /** `[r[field] for r in rows]`. */
  function Column(rows: seq<Row>, field: string): (r: seq<string>)
    requires Have(rows, {field})
    ensures |r| == |rows|
    ensures forall i :: 0 <= i < |rows| ==> r[i] == rows[i][field]
    ensures forall v :: v in r <==> exists i :: 0 <= i < |rows| && rows[i][field] == v
  {
    var r := seq(|rows|, i requires 0 <= i < |rows| => rows[i][field]);
    assert forall i :: 0 <= i < |rows| ==> r[i] == rows[i][field];
    r
  }

  /** A request for every row of a table, from the summary. */
  function All(etid: nat): Request {
    Request(Where(map[]), etid, Some(true))
  }

  /** The project lookup by name, narrowed by `user_tag` only when it is
      truthy. */
  function ProjectRequest(projectName: string, userTag: Option<string>): (q: Request)
    ensures q.etid == ProjectETId && q.fromSummary.None? && q.filter.Where?
    ensures q.filter.fields.Keys == {"project_name"} + (if Truthy(userTag) then {"user_tag"} else {})
    ensures q.filter.fields["project_name"] == Is(projectName)
    ensures Truthy(userTag) ==> q.filter.fields["user_tag"] == Is(userTag.value)
  {
    Request(Where(map["project_name" := Is(projectName)]
                  + (if Truthy(userTag) then map["user_tag" := Is(userTag.value)] else map[])),
            ProjectETId, None)
  }

  /** An empty `user_tag` narrows nothing: it asks what None asks. */
  lemma EmptyTagIsNone(projectName: string)
    ensures ProjectRequest(projectName, Some("")) == ProjectRequest(projectName, None)
  {
  }

  /** One entry of `list_projects`. */
  datatype ProjectInfo = ProjectInfo(uid: string, projectName: string,
                                     description: Option<string>, userTag: Option<string>)

  /** One entry of `list_projects_with_pipelines`: a project and, for each
      pipeline it has runs of, the number of those runs. */
  datatype ProjectPipelines = ProjectPipelines(projectName: string, userTag: Option<string>,
                                               pipelines: seq<(string, nat)>)

  /** A run row's (project_uid, pipeline_name) pair. */
  function RunKey(r: Row): (string, string)
    requires {"project_uid", "pipeline_name"} <= r.Keys
  {
    (r["project_uid"], r["pipeline_name"])
  }

  /** The number of run rows with the given (project_uid, pipeline_name). */
  function RunCount(runs: seq<Row>, key: (string, string)): nat
    requires Have(runs, {"project_uid", "pipeline_name"})
  {
    if runs == [] then 0
    else RunCount(runs[..|runs| - 1], key) + (if RunKey(runs[|runs| - 1]) == key then 1 else 0)
  }

  /** `run_counter` after counting `runs`: every pair seen, with its count. */
  function Counter(runs: seq<Row>): (c: map<(string, string), nat>)
    requires Have(runs, {"project_uid", "pipeline_name"})
    ensures forall k :: k in c <==> exists i :: 0 <= i < |runs| && RunKey(runs[i]) == k
    ensures forall k :: k in c ==> c[k] == RunCount(runs, k) && c[k] > 0
    ensures forall k :: k !in c ==> RunCount(runs, k) == 0
  {
    if runs == [] then map[]
    else
      var init := runs[..|runs| - 1];
      var k := RunKey(runs[|runs| - 1]);
      var c := Counter(init);
      assert forall i :: 0 <= i < |init| ==> init[i] == runs[i];
      assert forall j :: RunCount(runs, j) == RunCount(init, j) + (if k == j then 1 else 0);
      c[k := (if k in c then c[k] else 0) + 1]
  }

  /** The pipeline names of the runs of project `uid`, in row order. */
  function Names(runs: seq<Row>, uid: string): (r: seq<string>)
    requires Have(runs, {"project_uid", "pipeline_name"})
    ensures forall name :: name in r <==> exists i :: 0 <= i < |runs| && RunKey(runs[i]) == (uid, name)
  {
    if runs == [] then []
    else
      var init := runs[..|runs| - 1];
      var last := runs[|runs| - 1];
      assert forall i :: 0 <= i < |init| ==> init[i] == runs[i];
      Names(init, uid) + (if last["project_uid"] == uid then [last["pipeline_name"]] else [])
  }

  /** `{pl for (uid, pl) in keys if uid == proj_uid}`, as a list. */
  function Seconds(keys: seq<(string, string)>, uid: string): (r: seq<string>)
    ensures forall name :: name in r <==> (uid, name) in keys
  {
    if keys == [] then []
    else (if keys[0].0 == uid then [keys[0].1] else []) + Seconds(keys[1..], uid)
  }

  /** The entry `list_projects_with_pipelines` builds for one project row:
      its name and tag, and each pipeline its runs carry, ascending, with the
      number of its runs. */
  function Summary(p: Row, runs: seq<Row>): (r: ProjectPipelines)
    requires {"UID", "project_name"} <= p.Keys
    requires Have(runs, {"project_uid", "pipeline_name"})
    ensures StrictlySorted(PipelineNames(r))
    ensures forall name :: name in PipelineNames(r) <==>
      exists i :: 0 <= i < |runs| && RunKey(runs[i]) == (p["UID"], name)
  {
    var names := SortedDistinct(Names(runs, p["UID"]));
    var r := ProjectPipelines(p["project_name"], Lookup(p, "user_tag"),
      seq(|names|, i requires 0 <= i < |names| => (names[i], RunCount(runs, (p["UID"], names[i])))));
    assert PipelineNames(r) == names;
    r
  }

  /** The pipeline names of an entry. */
  function PipelineNames(s: ProjectPipelines): (r: seq<string>)
    ensures |r| == |s.pipelines|
    ensures forall j :: 0 <= j < |r| ==> r[j] == s.pipelines[j].0
  {
    seq(|s.pipelines|, i requires 0 <= i < |s.pipelines| => s.pipelines[i].0)
  }

  /** What `list_projects_with_pipelines` promises of one project beyond
      its pipeline names: the project's name and tag, and with each pipeline
      the number of its runs, never zero. */
  lemma SummaryCounts(p: Row, runs: seq<Row>)
    requires {"UID", "project_name"} <= p.Keys
    requires Have(runs, {"project_uid", "pipeline_name"})
    ensures var s := Summary(p, runs);
      && s.projectName == p["project_name"]
      && s.userTag == Lookup(p, "user_tag")
      && forall j :: 0 <= j < |s.pipelines| ==>
           s.pipelines[j].1 == RunCount(runs, (p["UID"], s.pipelines[j].0)) > 0
  {
    var s := Summary(p, runs);
    var names := SortedDistinct(Names(runs, p["UID"]));
    assert PipelineNames(s) == names;
    var c := Counter(runs);
    forall j | 0 <= j < |s.pipelines|
      ensures s.pipelines[j].1 == RunCount(runs, (p["UID"], s.pipelines[j].0)) > 0
    {
      assert names[j] in Names(runs, p["UID"]);
      assert (p["UID"], names[j]) in c;
    }
  }

  /** One more row counted. */
  lemma CounterStep(runs: seq<Row>, i: nat)
    requires i < |runs| && Have(runs, {"project_uid", "pipeline_name"})
    ensures var c := Counter(runs[..i]); var k := RunKey(runs[i]);
      Counter(runs[..i + 1]) == c[k := (if k in c then c[k] else 0) + 1]
  {
    assert runs[..i + 1][..i] == runs[..i];
  }

  /** The `pipelines` comprehension: each name paired with `uid` among the
      counter's keys, ascending, with its count (0 where the `defaultdict`
      has no entry). */
  function Tally(counter: map<(string, string), nat>, keys: seq<(string, string)>, uid: string): (r: seq<(string, nat)>)
    ensures forall i, j :: 0 <= i < j < |r| ==> Less(r[i].0, r[j].0)
    ensures forall i :: 0 <= i < |r| ==> (uid, r[i].0) in keys
    ensures forall name :: (uid, name) in keys ==> exists i :: 0 <= i < |r| && r[i].0 == name
  {
    var names := SortedDistinct(Seconds(keys, uid));
    assert forall name :: (uid, name) in keys ==> exists i :: 0 <= i < |names| && names[i] == name by {
      forall name | (uid, name) in keys ensures exists i :: 0 <= i < |names| && names[i] == name {
        assert name in names;
      }
    }
    var r := seq(|names|, i requires 0 <= i < |names| =>
      (names[i], if (uid, names[i]) in counter then counter[(uid, names[i])] else 0));
    assert forall i :: 0 <= i < |r| ==> r[i].0 == names[i];
    r
  }

  /** The entry built from `run_counter` and its key list is `Summary`. */
  lemma SummaryFromCounter(p: Row, runs: seq<Row>, keys: seq<(string, string)>)
    requires {"UID", "project_name"} <= p.Keys
    requires Have(runs, {"project_uid", "pipeline_name"})
    requires forall k :: k in keys <==> k in Counter(runs)
    ensures ProjectPipelines(p["project_name"], Lookup(p, "user_tag"), Tally(Counter(runs), keys, p["UID"]))
      == Summary(p, runs)
  {
    SortedDistinctBySet(Seconds(keys, p["UID"]), Names(runs, p["UID"]));
    var names := SortedDistinct(Names(runs, p["UID"]));
    var t := Tally(Counter(runs), keys, p["UID"]);
    forall m | 0 <= m < |names| ensures t[m] == Summary(p, runs).pipelines[m] {
      assert names[m] in Names(runs, p["UID"]);
    }
  }

  /** The counting loop of `list_projects_with_pipelines`: `run_counter`
      after every run is counted, and its keys in first-seen order. */
  method CountRuns(runs: seq<Row>) returns (counter: map<(string, string), nat>, keys: seq<(string, string)>)
    requires Have(runs, {"project_uid", "pipeline_name"})
    ensures counter == Counter(runs)
    ensures forall k :: k in keys <==> k in counter
  {
    counter := map[];
    keys := [];
    var i := 0;
    while i < |runs|
      invariant i <= |runs|
      invariant counter == Counter(runs[..i])
      invariant forall k :: k in keys <==> k in counter
    {
      CounterStep(runs, i);
      var key := RunKey(runs[i]);
      if key !in counter {
        keys := keys + [key];
      }
      counter := counter[key := (if key in counter then counter[key] else 0) + 1];
      i := i + 1;
    }
    assert runs[..i] == runs;
  }

  /** `Catalog(walacor_service)`: the data-request service it queries. */
  class Catalog {
    const store: Store

    constructor(service: Store)
      ensures store == service
    {
      store := service;
    }

    /** `list_projects`: one entry per project row, in order. */
    function ListProjects(): (r: seq<ProjectInfo>)
      requires Have(store(All(ProjectETId)), {"UID", "project_name"})
      ensures var rows := store(All(ProjectETId));
        && |r| == |rows|
        && forall i :: 0 <= i < |r| ==>
             r[i] == ProjectInfo(rows[i]["UID"], rows[i]["project_name"],
                                 Lookup(rows[i], "description"), Lookup(rows[i], "user_tag"))
    {
      var rows := store(All(ProjectETId));
      seq(|rows|, i requires 0 <= i < |rows| =>
        ProjectInfo(rows[i]["UID"], rows[i]["project_name"],
                    Lookup(rows[i], "description"), Lookup(rows[i], "user_tag")))
    }

    /** `list_pipelines`: the pipeline names of all runs, ascending, each
        once. */
    function ListPipelines(): (r: seq<string>)
      requires Have(store(All(RunETId)), {"pipeline_name"})
      ensures StrictlySorted(r)
      ensures var rows := store(All(RunETId));
        forall name :: name in r <==> exists i :: 0 <= i < |rows| && rows[i]["pipeline_name"] == name
    {
      var rows := store(All(RunETId));
      SortedDistinct(Column(rows, "pipeline_name"))
    }

    /** The UID of the first project found, or None when there is none. */
    function ProjectUid(projectName: string, userTag: Option<string>): (u: Option<string>)
      requires FirstHas(store(ProjectRequest(projectName, userTag)), "UID")
      ensures var rows := store(ProjectRequest(projectName, userTag));
        && (u.None? <==> rows == [])
        && (u.Some? ==> u.value == rows[0]["UID"])
    {
      var rows := store(ProjectRequest(projectName, userTag));
      if rows == [] then None else Some(rows[0]["UID"])
    }

    /** The runs of one project (and pipeline, when one is given), from the
        summary. */
    function RunsRequest(uid: string, pipelineName: Option<string>): (q: Request)
      ensures q.etid == RunETId && q.fromSummary == Some(true) && q.filter.Where?
      ensures q.filter.fields.Keys == {"project_uid"} + (if Truthy(pipelineName) then {"pipeline_name"} else {})
      ensures q.filter.fields["project_uid"] == Is(uid)
      ensures Truthy(pipelineName) ==> q.filter.fields["pipeline_name"] == Is(pipelineName.value)
    {
      Request(Where(map["project_uid" := Is(uid)]
                    + (if Truthy(pipelineName) then map["pipeline_name" := Is(pipelineName.value)] else map[])),
              RunETId, Some(true))
    }

    /** `list_pipelines_for_project`: nothing when no project matches;
        otherwise the pipeline names of the first match's runs, ascending,
        each once. */
    function ListPipelinesForProject(projectName: string, userTag: Option<string>): (r: seq<string>)
      requires FirstHas(store(ProjectRequest(projectName, userTag)), "UID")
      requires var u := ProjectUid(projectName, userTag);
        u.Some? ==> Have(store(RunsRequest(u.value, None)), {"pipeline_name"})
      ensures StrictlySorted(r)
      ensures ProjectUid(projectName, userTag).None? ==> r == []
      ensures var u := ProjectUid(projectName, userTag);
        u.Some? ==> var rows := store(RunsRequest(u.value, None));
          forall name :: name in r <==> exists i :: 0 <= i < |rows| && rows[i]["pipeline_name"] == name
    {
      match ProjectUid(projectName, userTag)
      case None => []
      case Some(uid) =>
        var rows := store(RunsRequest(uid, None));
        SortedDistinct(Column(rows, "pipeline_name"))
    }

    /** `list_runs`: nothing when no project matches; otherwise the runs of
        the first match, narrowed to the pipeline only when one is given. */
    function ListRuns(projectName: string, pipelineName: Option<string>, userTag: Option<string>): (r: seq<Row>)
      requires FirstHas(store(ProjectRequest(projectName, userTag)), "UID")
      ensures ProjectUid(projectName, userTag).None? ==> r == []
      ensures ProjectUid(projectName, userTag).Some? ==>
        r == store(RunsRequest(ProjectUid(projectName, userTag).value, pipelineName))
    {
      match ProjectUid(projectName, userTag)
      case None => []
      case Some(uid) => store(RunsRequest(uid, pipelineName))
    }

    /** The node filter of `list_nodes` for project `uid`: a truthy `runUid`
        wins; otherwise a truthy pipeline name selects that pipeline's runs
        (None when it has none); otherwise the whole project. */
    function NodeFilter(uid: string, pipelineName: Option<string>, runUid: Option<string>): (f: Option<map<string, Cond>>)
      requires !Truthy(runUid) && Truthy(pipelineName) ==>
        Have(store(RunsRequest(uid, pipelineName)), {"UID"})
      ensures Truthy(runUid) ==> f == Some(map["project_uid" := Is(uid), "run_uid" := Is(runUid.value)])
      ensures !Truthy(runUid) && !Truthy(pipelineName) ==> f == Some(map["project_uid" := Is(uid)])
      ensures !Truthy(runUid) && Truthy(pipelineName) ==>
        var runs := store(RunsRequest(uid, pipelineName));
        && (f.None? <==> runs == [])
        && (f.Some? ==> f.value == map["project_uid" := Is(uid), "run_uid" := In(Column(runs, "UID"))])
    {
      var flt := map["project_uid" := Is(uid)];
      if Truthy(runUid) then Some(flt["run_uid" := Is(runUid.value)])
      else if Truthy(pipelineName) then
        var runs := store(RunsRequest(uid, pipelineName));
        if runs == [] then None
        else Some(flt["run_uid" := In(Column(runs, "UID"))])
      else Some(flt)
    }

    /** The node precondition of `list_nodes`: the rows it reads have the
        fields it reads. */
    ghost predicate NodesReadable(projectName: string, pipelineName: Option<string>, runUid: Option<string>, userTag: Option<string>) {
      && FirstHas(store(ProjectRequest(projectName, userTag)), "UID")
      && var u := ProjectUid(projectName, userTag);
         u.Some? && !Truthy(runUid) && Truthy(pipelineName) ==>
           Have(store(RunsRequest(u.value, pipelineName)), {"UID"})
    }

    /** `list_nodes`: nothing when no project matches or the named pipeline
        has no runs; otherwise the nodes under the filter `NodeFilter`. */
    function ListNodes(projectName: string, pipelineName: Option<string>, runUid: Option<string>, userTag: Option<string>): (r: seq<Row>)
      requires NodesReadable(projectName, pipelineName, runUid, userTag)
      ensures ProjectUid(projectName, userTag).None? ==> r == []
      ensures var u := ProjectUid(projectName, userTag);
        u.Some? ==> var f := NodeFilter(u.value, pipelineName, runUid);
          r == if f.None? then [] else store(Request(Where(f.value), NodeETId, Some(true)))
    {
      match ProjectUid(projectName, userTag)
      case None => []
      case Some(uid) =>
        match NodeFilter(uid, pipelineName, runUid)
        case None => []
        case Some(flt) => store(Request(Where(flt), NodeETId, Some(true)))
    }

    /** With a truthy `runUid`, the pipeline name plays no part. */
    lemma RunUidTakesPrecedence(projectName: string, a: Option<string>, b: Option<string>, runUid: Option<string>, userTag: Option<string>)
      requires Truthy(runUid)
      requires FirstHas(store(ProjectRequest(projectName, userTag)), "UID")
      ensures ListNodes(projectName, a, runUid, userTag) == ListNodes(projectName, b, runUid, userTag)
    {
    }

    /** `list_dag`: the nodes of `list_nodes` and the edges touching any of
        them; with no nodes, both are empty and the edge table is not asked. */
    function ListDag(projectName: string, pipelineName: Option<string>, runUid: Option<string>, userTag: Option<string>): (r: (seq<Row>, seq<Row>))
      requires NodesReadable(projectName, pipelineName, runUid, userTag)
      requires Have(ListNodes(projectName, pipelineName, runUid, userTag), {"UID"})
      ensures var nodes := ListNodes(projectName, pipelineName, runUid, userTag);
        && r.0 == nodes
        && (nodes == [] ==> r.1 == [])
        && (nodes != [] ==> r.1 == store(EdgesRequest(nodes)))
    {
      var nodes := ListNodes(projectName, pipelineName, runUid, userTag);
      if nodes == [] then ([], []) else (nodes, store(EdgesRequest(nodes)))
    }

    /** The edges whose parent or child is one of `nodes`. */
    function EdgesRequest(nodes: seq<Row>): (q: Request)
      requires Have(nodes, {"UID"})
      ensures q.etid == EdgeETId && q.fromSummary == Some(true)
      ensures q.filter.Either? && |q.filter.alternatives| == 2
      ensures q.filter.alternatives[0].Keys == {"parent_node_uid"}
      ensures q.filter.alternatives[1].Keys == {"child_node_uid"}
      ensures q.filter.alternatives[0]["parent_node_uid"] == In(Column(nodes, "UID"))
      ensures q.filter.alternatives[1]["child_node_uid"] == In(Column(nodes, "UID"))
    {
      var uids := In(Column(nodes, "UID"));
      Request(Either([map["parent_node_uid" := uids], map["child_node_uid" := uids]]), EdgeETId, Some(true))
    }

    /** `list_projects_with_pipelines`: counts the runs per
        (project_uid, pipeline_name) in `run_counter`, whose keys `keys`
        lists, then builds one entry per project row, in order. */
    method ListProjectsWithPipelines() returns (out: seq<ProjectPipelines>)
      requires Have(store(All(ProjectETId)), {"UID", "project_name"})
      requires Have(store(All(RunETId)), {"project_uid", "pipeline_name"})
      ensures var projects := store(All(ProjectETId));
        && |out| == |projects|
        && forall i :: 0 <= i < |out| ==> out[i] == Summary(projects[i], store(All(RunETId)))
    {
      var projects := store(All(ProjectETId));
      var runs := store(All(RunETId));
      var counter, keys := CountRuns(runs);
      out := [];
      var j := 0;
      while j < |projects|
        invariant j <= |projects|
        invariant |out| == j
        invariant forall k :: 0 <= k < j ==> out[k] == Summary(projects[k], runs)
      {
        var p := projects[j];
        var item := ProjectPipelines(p["project_name"], Lookup(p, "user_tag"), Tally(counter, keys, p["UID"]));
        assert item == Summary(p, runs) by {
          SummaryFromCounter(p, runs, keys);
        }
        out := out + [item];
        j := j + 1;
      }
    }
  }
}
