/** GraphBuilder.build: turns a ProjectAnalysis into a graph. Every node id
    extends its parent's id, except a call target's, which hangs off the
    project's id only. The builder's calls on the model are described as a
    sequence of operations; the nodes and edges of the model are what that
    sequence adds. */
module GraphBuilder {
  import opened Base
  import opened Text
  import opened Facts
  import opened Graph
  import opened ProjectAnalyzer

  /** nullSafe: the fallback for a null or blank value, else the value. */
  function NullSafe(value: Option<string>, fallback: string): (r: string)
    ensures value.None? || IsBlank(value.value) ==> r == fallback
    ensures value.Some? && !IsBlank(value.value) ==> r == value.value
  {
    if value.None? || IsBlank(value.value) then fallback else value.value
  }

  /** With a non-blank fallback, as every caller passes, the result is never
      blank, and it is the fallback exactly for a null or blank value or a
      value equal to the fallback. */
  lemma NullSafeFallsBack(value: Option<string>, fallback: string)
    requires !IsBlank(fallback)
    ensures !IsBlank(NullSafe(value, fallback))
    ensures NullSafe(value, fallback) == fallback <==> value.None? || IsBlank(value.value) || value.value == fallback
  {
  }

  // ---------------------------------------------------------------------
  // Ids
  // ---------------------------------------------------------------------

  function ProjectId(s: ProjectSummary): string
  {
    "project:" + NullSafe(s.project.name, s.vbpPath)
  }

  function FormId(projectId: string, f: FrmAnalysis): string
  {
    projectId + ":form:" + NullSafe(f.formName, "unknown")
  }

  function EventId(formId: string, e: FrmEvent): string { formId + ":event:" + e.name }

  function ModuleId(projectId: string, m: BasAnalysis): string
  {
    projectId + ":module:" + NullSafe(m.moduleName, "unknown")
  }

  function RoutineId(moduleId: string, r: BasRoutine): string { moduleId + ":routine:" + r.name }

  /** A call target's id: the project's id and the target, nothing else. */
  function TargetId(projectId: string, target: string): string { projectId + ":call:" + target }

  /** The project id falls back to the manifest path when the project has no
      usable name. */
  lemma ProjectIdFallsBack(s: ProjectSummary)
    ensures s.project.name.None? || IsBlank(s.project.name.value) ==> ProjectId(s) == "project:" + s.vbpPath
    ensures s.project.name.Some? && !IsBlank(s.project.name.value) ==> ProjectId(s) == "project:" + s.project.name.value
  {
  }

  // ---------------------------------------------------------------------
  // The calls build makes on the model
  // ---------------------------------------------------------------------

  /** One call on the model: addNode or addEdge. */
  datatype Op = AddNodeOp(node: Node) | AddEdgeOp(edge: Edge)

  /** The nodes a sequence of calls adds, in order. */
  function NodesOf(ops: seq<Op>): seq<Node>
  {
    if ops == [] then [] else (if ops[0].AddNodeOp? then [ops[0].node] else []) + NodesOf(ops[1..])
  }

  /** The edges a sequence of calls adds, in order. */
  function EdgesOf(ops: seq<Op>): seq<Edge>
  {
    if ops == [] then [] else (if ops[0].AddEdgeOp? then [ops[0].edge] else []) + EdgesOf(ops[1..])
  }

  lemma {:induction false} NodesConcat(a: seq<Op>, b: seq<Op>)
    ensures NodesOf(a + b) == NodesOf(a) + NodesOf(b)
  {
    if a == [] {
      assert a + b == b;
    } else {
      var n := if a[0].AddNodeOp? then [a[0].node] else [];
      var ab := a + b;
      assert ab[0] == a[0] && ab[1..] == a[1..] + b;
      assert NodesOf(ab) == n + NodesOf(a[1..] + b);
      NodesConcat(a[1..], b);
      assert NodesOf(a) == n + NodesOf(a[1..]);
      assert n + (NodesOf(a[1..]) + NodesOf(b)) == (n + NodesOf(a[1..])) + NodesOf(b);
    }
  }

  lemma {:induction false} EdgesConcat(a: seq<Op>, b: seq<Op>)
    ensures EdgesOf(a + b) == EdgesOf(a) + EdgesOf(b)
  {
    if a == [] {
      assert a + b == b;
    } else {
      var e := if a[0].AddEdgeOp? then [a[0].edge] else [];
      var ab := a + b;
      assert ab[0] == a[0] && ab[1..] == a[1..] + b;
      assert EdgesOf(ab) == e + EdgesOf(a[1..] + b);
      EdgesConcat(a[1..], b);
      assert EdgesOf(a) == e + EdgesOf(a[1..]);
      assert e + (EdgesOf(a[1..]) + EdgesOf(b)) == (e + EdgesOf(a[1..])) + EdgesOf(b);
    }
  }

  lemma OpsConcat(a: seq<Op>, b: seq<Op>)
    ensures NodesOf(a + b) == NodesOf(a) + NodesOf(b)
    ensures EdgesOf(a + b) == EdgesOf(a) + EdgesOf(b)
  {
    NodesConcat(a, b);
    EdgesConcat(a, b);
  }

  /** An addNode followed by an addEdge adds that node and that edge. */
  lemma PairOps(n: Node, e: Edge)
    ensures NodesOf([AddNodeOp(n), AddEdgeOp(e)]) == [n]
    ensures EdgesOf([AddNodeOp(n), AddEdgeOp(e)]) == [e]
  {
    assert [AddNodeOp(n), AddEdgeOp(e)][1..] == [AddEdgeOp(e)];
    assert [AddEdgeOp(e)][1..] == [];
    assert NodesOf([AddEdgeOp(e)]) == [] + NodesOf([]);
    assert EdgesOf([AddEdgeOp(e)]) == [e] + EdgesOf([]);
  }

  /** One pass of a loop adds what the step adds after what is already there. */
  lemma StepAdds(nodes0: seq<Node>, edges0: seq<Edge>, done: seq<Op>, head: seq<Op>, rest: seq<Op>, n: Node, e: Edge)
    requires head == [AddNodeOp(n), AddEdgeOp(e)]
    ensures nodes0 + NodesOf(done + (head + rest)) == nodes0 + NodesOf(done) + [n] + NodesOf(rest)
    ensures edges0 + EdgesOf(done + (head + rest)) == edges0 + EdgesOf(done) + [e] + EdgesOf(rest)
  {
    PairOps(n, e);
    OpsConcat(head, rest);
    OpsConcat(done, head + rest);
    Regroup(nodes0, NodesOf(done), [n], NodesOf(rest));
    Regroup(edges0, EdgesOf(done), [e], EdgesOf(rest));
  }

  lemma Regroup<T>(a: seq<T>, b: seq<T>, c: seq<T>, d: seq<T>)
    ensures a + (b + (c + d)) == a + b + c + d
  {
  }

  /** The innermost loop, for one call: the target node, then the edge to it
      labelled with the call's type. */
  function CallStep(projectId: string, parentId: string, c: Call): seq<Op>
  {
    var targetId := TargetId(projectId, c.target);
    [AddNodeOp(Node(targetId, CallTargetNode, c.target)), AddEdgeOp(Edge(parentId, targetId, c.kind))]
  }

  function CallOps(projectId: string, parentId: string, calls: seq<Call>): seq<Op>
  {
    if calls == [] then []
    else CallOps(projectId, parentId, calls[..|calls| - 1]) + CallStep(projectId, parentId, calls[|calls| - 1])
  }

  /** One event: its node, the HAS_EVENT edge, then its calls. */
  function EventStep(projectId: string, formId: string, e: FrmEvent): seq<Op>
  {
    var eventId := EventId(formId, e);
    [AddNodeOp(Node(eventId, EventNode, e.name)), AddEdgeOp(Edge(formId, eventId, "HAS_EVENT"))]
    + CallOps(projectId, eventId, e.calls)
  }

  function EventOps(projectId: string, formId: string, events: seq<FrmEvent>): seq<Op>
  {
    if events == [] then []
    else EventOps(projectId, formId, events[..|events| - 1]) + EventStep(projectId, formId, events[|events| - 1])
  }

  /** One form: its node, the HAS_FORM edge, then its events. */
  function FormStep(projectId: string, f: FrmAnalysis): seq<Op>
  {
    var formId := FormId(projectId, f);
    [AddNodeOp(Node(formId, FormNode, NullSafe(f.formName, "(form)"))), AddEdgeOp(Edge(projectId, formId, "HAS_FORM"))]
    + EventOps(projectId, formId, f.events)
  }

  function FormOps(projectId: string, forms: seq<FrmAnalysis>): seq<Op>
  {
    if forms == [] then []
    else FormOps(projectId, forms[..|forms| - 1]) + FormStep(projectId, forms[|forms| - 1])
  }

  /** One routine: its node, the edge labelled with its kind, then its calls. */
  function RoutineStep(projectId: string, moduleId: string, r: BasRoutine): seq<Op>
  {
    var routineId := RoutineId(moduleId, r);
    [AddNodeOp(Node(routineId, RoutineNode, r.name)), AddEdgeOp(Edge(moduleId, routineId, r.kind))]
    + CallOps(projectId, routineId, r.calls)
  }

  function RoutineOps(projectId: string, moduleId: string, routines: seq<BasRoutine>): seq<Op>
  {
    if routines == [] then []
    else RoutineOps(projectId, moduleId, routines[..|routines| - 1]) + RoutineStep(projectId, moduleId, routines[|routines| - 1])
  }

  /** One module: its node, the HAS_MODULE edge, then its routines. */
  function ModuleStep(projectId: string, m: BasAnalysis): seq<Op>
  {
    var moduleId := ModuleId(projectId, m);
    [AddNodeOp(Node(moduleId, ModuleNode, NullSafe(m.moduleName, "(module)"))), AddEdgeOp(Edge(projectId, moduleId, "HAS_MODULE"))]
    + RoutineOps(projectId, moduleId, m.routines)
  }

  function ModuleOps(projectId: string, modules: seq<BasAnalysis>): seq<Op>
  {
    if modules == [] then []
    else ModuleOps(projectId, modules[..|modules| - 1]) + ModuleStep(projectId, modules[|modules| - 1])
  }

  /** One project: its node, then all its forms, then all its modules. */
  function ProjectStep(s: ProjectSummary): seq<Op>
  {
    var projectId := ProjectId(s);
    [AddNodeOp(Node(projectId, ProjectNode, NullSafe(s.project.name, "(project)")))]
    + FormOps(projectId, s.forms) + ModuleOps(projectId, s.modules)
  }

  /** Everything build adds, project by project in input order. */
  function BuildOps(projects: seq<ProjectSummary>): seq<Op>
  {
    if projects == [] then []
    else BuildOps(projects[..|projects| - 1]) + ProjectStep(projects[|projects| - 1])
  }

  /** A project's pass adds its node, then its forms' and its modules' nodes. */
  lemma ProjectNodes(n: Node, forms: seq<Op>, modules: seq<Op>)
    ensures NodesOf([AddNodeOp(n)] + forms + modules) == [n] + NodesOf(forms) + NodesOf(modules)
  {
    assert [AddNodeOp(n)][1..] == [];
    assert NodesOf([AddNodeOp(n)]) == [n];
    NodesConcat([AddNodeOp(n)], forms);
    NodesConcat([AddNodeOp(n)] + forms, modules);
  }

  /** A project's pass adds its forms' and then its modules' edges. */
  lemma ProjectEdges(n: Node, forms: seq<Op>, modules: seq<Op>)
    ensures EdgesOf([AddNodeOp(n)] + forms + modules) == EdgesOf(forms) + EdgesOf(modules)
  {
    assert [AddNodeOp(n)][1..] == [];
    assert EdgesOf([AddNodeOp(n)]) == [];
    EdgesConcat([AddNodeOp(n)], forms);
    EdgesConcat([AddNodeOp(n)] + forms, modules);
  }

  // ---------------------------------------------------------------------
  // build, one method per loop
  // ---------------------------------------------------------------------

  /** The model gained the nodes and edges of `ops`. */
  predicate Added(model: GraphModel, nodes0: seq<Node>, edges0: seq<Edge>, ops: seq<Op>)
    reads model
  {
    model.nodes == nodes0 + NodesOf(ops) && model.edges == edges0 + EdgesOf(ops)
  }

  method AddCalls(model: GraphModel, projectId: string, parentId: string, calls: seq<Call>)
    modifies model
    ensures Added(model, old(model.nodes), old(model.edges), CallOps(projectId, parentId, calls))
  {
    for i := 0 to |calls|
      invariant Added(model, old(model.nodes), old(model.edges), CallOps(projectId, parentId, calls[..i]))
    {
      assert calls[..i + 1][..i] == calls[..i];
      var targetId := TargetId(projectId, calls[i].target);
      var node := Node(targetId, CallTargetNode, calls[i].target);
      var edge := Edge(parentId, targetId, calls[i].kind);
      StepAdds(old(model.nodes), old(model.edges), CallOps(projectId, parentId, calls[..i]),
               [AddNodeOp(node), AddEdgeOp(edge)], [], node, edge);
      assert [AddNodeOp(node), AddEdgeOp(edge)] + [] == CallStep(projectId, parentId, calls[i]);
      model.AddNode(node);
      model.AddEdge(edge);
    }
    assert calls[..|calls|] == calls;
  }

  method AddEvents(model: GraphModel, projectId: string, formId: string, events: seq<FrmEvent>)
    modifies model
    ensures Added(model, old(model.nodes), old(model.edges), EventOps(projectId, formId, events))
  {
    for i := 0 to |events|
      invariant Added(model, old(model.nodes), old(model.edges), EventOps(projectId, formId, events[..i]))
    {
      assert events[..i + 1][..i] == events[..i];
      var done := EventOps(projectId, formId, events[..i]);
      var eventId := EventId(formId, events[i]);
      var head := [AddNodeOp(Node(eventId, EventNode, events[i].name)), AddEdgeOp(Edge(formId, eventId, "HAS_EVENT"))];
      StepAdds(old(model.nodes), old(model.edges), done, head, CallOps(projectId, eventId, events[i].calls),
               Node(eventId, EventNode, events[i].name), Edge(formId, eventId, "HAS_EVENT"));
      model.AddNode(Node(eventId, EventNode, events[i].name));
      model.AddEdge(Edge(formId, eventId, "HAS_EVENT"));
      AddCalls(model, projectId, eventId, events[i].calls);
    }
    assert events[..|events|] == events;
  }

  method AddForms(model: GraphModel, projectId: string, forms: seq<FrmAnalysis>)
    modifies model
    ensures Added(model, old(model.nodes), old(model.edges), FormOps(projectId, forms))
  {
    for i := 0 to |forms|
      invariant Added(model, old(model.nodes), old(model.edges), FormOps(projectId, forms[..i]))
    {
      assert forms[..i + 1][..i] == forms[..i];
      var done := FormOps(projectId, forms[..i]);
      var formId := FormId(projectId, forms[i]);
      var formNode := Node(formId, FormNode, NullSafe(forms[i].formName, "(form)"));
      var head := [AddNodeOp(formNode), AddEdgeOp(Edge(projectId, formId, "HAS_FORM"))];
      StepAdds(old(model.nodes), old(model.edges), done, head, EventOps(projectId, formId, forms[i].events),
               formNode, Edge(projectId, formId, "HAS_FORM"));
      model.AddNode(formNode);
      model.AddEdge(Edge(projectId, formId, "HAS_FORM"));
      AddEvents(model, projectId, formId, forms[i].events);
    }
    assert forms[..|forms|] == forms;
  }

  method AddRoutines(model: GraphModel, projectId: string, moduleId: string, routines: seq<BasRoutine>)
    modifies model
    ensures Added(model, old(model.nodes), old(model.edges), RoutineOps(projectId, moduleId, routines))
  {
    for i := 0 to |routines|
      invariant Added(model, old(model.nodes), old(model.edges), RoutineOps(projectId, moduleId, routines[..i]))
    {
      assert routines[..i + 1][..i] == routines[..i];
      var done := RoutineOps(projectId, moduleId, routines[..i]);
      var routineId := RoutineId(moduleId, routines[i]);
      var head := [AddNodeOp(Node(routineId, RoutineNode, routines[i].name)), AddEdgeOp(Edge(moduleId, routineId, routines[i].kind))];
      StepAdds(old(model.nodes), old(model.edges), done, head, CallOps(projectId, routineId, routines[i].calls),
               Node(routineId, RoutineNode, routines[i].name), Edge(moduleId, routineId, routines[i].kind));
      model.AddNode(Node(routineId, RoutineNode, routines[i].name));
      model.AddEdge(Edge(moduleId, routineId, routines[i].kind));
      AddCalls(model, projectId, routineId, routines[i].calls);
    }
    assert routines[..|routines|] == routines;
  }

  method AddModules(model: GraphModel, projectId: string, modules: seq<BasAnalysis>)
    modifies model
    ensures Added(model, old(model.nodes), old(model.edges), ModuleOps(projectId, modules))
  {
    for i := 0 to |modules|
      invariant Added(model, old(model.nodes), old(model.edges), ModuleOps(projectId, modules[..i]))
    {
      assert modules[..i + 1][..i] == modules[..i];
      var done := ModuleOps(projectId, modules[..i]);
      var moduleId := ModuleId(projectId, modules[i]);
      var moduleNode := Node(moduleId, ModuleNode, NullSafe(modules[i].moduleName, "(module)"));
      var head := [AddNodeOp(moduleNode), AddEdgeOp(Edge(projectId, moduleId, "HAS_MODULE"))];
      StepAdds(old(model.nodes), old(model.edges), done, head, RoutineOps(projectId, moduleId, modules[i].routines),
               moduleNode, Edge(projectId, moduleId, "HAS_MODULE"));
      model.AddNode(moduleNode);
      model.AddEdge(Edge(projectId, moduleId, "HAS_MODULE"));
      AddRoutines(model, projectId, moduleId, modules[i].routines);
    }
    assert modules[..|modules|] == modules;
  }

  /** The body of build's project loop: the project node, then its forms
      and its modules. */
  method AddProject(model: GraphModel, s: ProjectSummary)
    modifies model
    ensures Added(model, old(model.nodes), old(model.edges), ProjectStep(s))
  {
    var projectId := ProjectId(s);
    var projectNode := Node(projectId, ProjectNode, NullSafe(s.project.name, "(project)"));
    var formOps, moduleOps := FormOps(projectId, s.forms), ModuleOps(projectId, s.modules);
    assert ProjectStep(s) == [AddNodeOp(projectNode)] + formOps + moduleOps;
    ProjectAdds(model.nodes, model.edges, projectNode, formOps, moduleOps);
    model.AddNode(projectNode);
    AddForms(model, projectId, s.forms);
    AddModules(model, projectId, s.modules);
  }

  /** What one project's pass adds, in the order its three calls add it. */
  lemma ProjectAdds(nodes0: seq<Node>, edges0: seq<Edge>, n: Node, forms: seq<Op>, modules: seq<Op>)
    ensures nodes0 + NodesOf([AddNodeOp(n)] + forms + modules) == nodes0 + [n] + NodesOf(forms) + NodesOf(modules)
    ensures edges0 + EdgesOf([AddNodeOp(n)] + forms + modules) == edges0 + EdgesOf(forms) + EdgesOf(modules)
  {
    ProjectNodes(n, forms, modules);
    ProjectEdges(n, forms, modules);
    Regroup(nodes0, [n], NodesOf(forms), NodesOf(modules));
    assert [n] + NodesOf(forms) + NodesOf(modules) == [n] + (NodesOf(forms) + NodesOf(modules));
    assert edges0 + (EdgesOf(forms) + EdgesOf(modules)) == edges0 + EdgesOf(forms) + EdgesOf(modules);
  }

  /** The calls of the first `i + 1` projects are those of the first `i`,
      then the next project's. */
  lemma BuildOpsStep(projects: seq<ProjectSummary>, i: nat)
    requires i < |projects|
    ensures NodesOf(BuildOps(projects[..i + 1])) == NodesOf(BuildOps(projects[..i])) + NodesOf(ProjectStep(projects[i]))
    ensures EdgesOf(BuildOps(projects[..i + 1])) == EdgesOf(BuildOps(projects[..i])) + EdgesOf(ProjectStep(projects[i]))
  {
    assert projects[..i + 1][..i] == projects[..i];
    NodesConcat(BuildOps(projects[..i]), ProjectStep(projects[i]));
    EdgesConcat(BuildOps(projects[..i]), ProjectStep(projects[i]));
  }

  /** GraphBuilder.build */
  method Build(analysis: ProjectAnalysis) returns (model: GraphModel)
    ensures fresh(model)
    ensures model.nodes == NodesOf(BuildOps(analysis.projects))
    ensures model.edges == EdgesOf(BuildOps(analysis.projects))
  {
    model := new GraphModel();
    var projects := analysis.projects;
    for i := 0 to |projects|
      invariant model.nodes == NodesOf(BuildOps(projects[..i]))
      invariant model.edges == EdgesOf(BuildOps(projects[..i]))
    {
      BuildOpsStep(projects, i);
      AddProject(model, projects[i]);
    }
    assert projects[..|projects|] == projects;
  }

  // ---------------------------------------------------------------------
  // Counts
  // ---------------------------------------------------------------------

  /** Σ over events of (1 + number of calls). */
  function EventEdges(events: seq<FrmEvent>): nat
  {
    if events == [] then 0 else EventEdges(events[..|events| - 1]) + 1 + |events[|events| - 1].calls|
  }

  /** Σ over forms of (1 + EventEdges of its events). */
  function FormEdges(forms: seq<FrmAnalysis>): nat
  {
    if forms == [] then 0 else FormEdges(forms[..|forms| - 1]) + 1 + EventEdges(forms[|forms| - 1].events)
  }

  /** Σ over routines of (1 + number of calls). */
  function RoutineEdges(routines: seq<BasRoutine>): nat
  {
    if routines == [] then 0 else RoutineEdges(routines[..|routines| - 1]) + 1 + |routines[|routines| - 1].calls|
  }

  /** Σ over modules of (1 + RoutineEdges of its routines). */
  function ModuleEdges(modules: seq<BasAnalysis>): nat
  {
    if modules == [] then 0 else ModuleEdges(modules[..|modules| - 1]) + 1 + RoutineEdges(modules[|modules| - 1].routines)
  }

  /** Σ over projects of FormEdges + ModuleEdges. */
  function EdgeCount(projects: seq<ProjectSummary>): nat
  {
    if projects == [] then 0
    else EdgeCount(projects[..|projects| - 1]) + FormEdges(projects[|projects| - 1].forms) + ModuleEdges(projects[|projects| - 1].modules)
  }

  /** Appending a step whose first two calls add one node and one edge. */
  lemma StepCounts(done: seq<Op>, n: Node, e: Edge, rest: seq<Op>)
    ensures |NodesOf(done + ([AddNodeOp(n), AddEdgeOp(e)] + rest))| == |NodesOf(done)| + 1 + |NodesOf(rest)|
    ensures |EdgesOf(done + ([AddNodeOp(n), AddEdgeOp(e)] + rest))| == |EdgesOf(done)| + 1 + |EdgesOf(rest)|
  {
    StepAdds([], [], done, [AddNodeOp(n), AddEdgeOp(e)], rest, n, e);
  }

  lemma {:induction false} CallCounts(projectId: string, parentId: string, calls: seq<Call>)
    ensures |NodesOf(CallOps(projectId, parentId, calls))| == |calls|
    ensures |EdgesOf(CallOps(projectId, parentId, calls))| == |calls|
  {
    if calls != [] {
      var c := calls[|calls| - 1];
      CallCounts(projectId, parentId, calls[..|calls| - 1]);
      StepCounts(CallOps(projectId, parentId, calls[..|calls| - 1]),
                 Node(TargetId(projectId, c.target), CallTargetNode, c.target),
                 Edge(parentId, TargetId(projectId, c.target), c.kind), []);
      assert CallStep(projectId, parentId, c) + [] == CallStep(projectId, parentId, c);
    }
  }

  lemma {:induction false} EventCounts(projectId: string, formId: string, events: seq<FrmEvent>)
    ensures |NodesOf(EventOps(projectId, formId, events))| == EventEdges(events)
    ensures |EdgesOf(EventOps(projectId, formId, events))| == EventEdges(events)
  {
    if events != [] {
      var e := events[|events| - 1];
      var eventId := EventId(formId, e);
      EventCounts(projectId, formId, events[..|events| - 1]);
      CallCounts(projectId, eventId, e.calls);
      StepCounts(EventOps(projectId, formId, events[..|events| - 1]),
                 Node(eventId, EventNode, e.name), Edge(formId, eventId, "HAS_EVENT"),
                 CallOps(projectId, eventId, e.calls));
    }
  }

  lemma {:induction false} FormCounts(projectId: string, forms: seq<FrmAnalysis>)
    ensures |NodesOf(FormOps(projectId, forms))| == FormEdges(forms)
    ensures |EdgesOf(FormOps(projectId, forms))| == FormEdges(forms)
  {
    if forms != [] {
      var f := forms[|forms| - 1];
      var formId := FormId(projectId, f);
      FormCounts(projectId, forms[..|forms| - 1]);
      EventCounts(projectId, formId, f.events);
      StepCounts(FormOps(projectId, forms[..|forms| - 1]),
                 Node(formId, FormNode, NullSafe(f.formName, "(form)")), Edge(projectId, formId, "HAS_FORM"),
                 EventOps(projectId, formId, f.events));
    }
  }

  lemma {:induction false} RoutineCounts(projectId: string, moduleId: string, routines: seq<BasRoutine>)
    ensures |NodesOf(RoutineOps(projectId, moduleId, routines))| == RoutineEdges(routines)
    ensures |EdgesOf(RoutineOps(projectId, moduleId, routines))| == RoutineEdges(routines)
  {
    if routines != [] {
      var r := routines[|routines| - 1];
      var routineId := RoutineId(moduleId, r);
      RoutineCounts(projectId, moduleId, routines[..|routines| - 1]);
      CallCounts(projectId, routineId, r.calls);
      StepCounts(RoutineOps(projectId, moduleId, routines[..|routines| - 1]),
                 Node(routineId, RoutineNode, r.name), Edge(moduleId, routineId, r.kind),
                 CallOps(projectId, routineId, r.calls));
    }
  }

  lemma {:induction false} ModuleCounts(projectId: string, modules: seq<BasAnalysis>)
    ensures |NodesOf(ModuleOps(projectId, modules))| == ModuleEdges(modules)
    ensures |EdgesOf(ModuleOps(projectId, modules))| == ModuleEdges(modules)
  {
    if modules != [] {
      var m := modules[|modules| - 1];
      var moduleId := ModuleId(projectId, m);
      ModuleCounts(projectId, modules[..|modules| - 1]);
      RoutineCounts(projectId, moduleId, m.routines);
      StepCounts(ModuleOps(projectId, modules[..|modules| - 1]),
                 Node(moduleId, ModuleNode, NullSafe(m.moduleName, "(module)")), Edge(projectId, moduleId, "HAS_MODULE"),
                 RoutineOps(projectId, moduleId, m.routines));
    }
  }

  /** build adds Σ_forms(1 + Σ_events(1 + |calls|)) + Σ_modules(1 +
      Σ_routines(1 + |calls|)) edges over all projects, and one node per
      project more than edges, because every edge follows exactly one node
      and nothing is deduplicated. */
  lemma {:induction false} BuildCounts(projects: seq<ProjectSummary>)
    ensures |EdgesOf(BuildOps(projects))| == EdgeCount(projects)
    ensures |NodesOf(BuildOps(projects))| == |projects| + EdgeCount(projects)
  {
    if projects != [] {
      var s := projects[|projects| - 1];
      var projectId := ProjectId(s);
      var projectNode := Node(projectId, ProjectNode, NullSafe(s.project.name, "(project)"));
      BuildCounts(projects[..|projects| - 1]);
      FormCounts(projectId, s.forms);
      ModuleCounts(projectId, s.modules);
      ProjectNodes(projectNode, FormOps(projectId, s.forms), ModuleOps(projectId, s.modules));
      ProjectEdges(projectNode, FormOps(projectId, s.forms), ModuleOps(projectId, s.modules));
      NodesConcat(BuildOps(projects[..|projects| - 1]), ProjectStep(s));
      EdgesConcat(BuildOps(projects[..|projects| - 1]), ProjectStep(s));
    }
  }

  // ---------------------------------------------------------------------
  // Every edge joins nodes already added
  // ---------------------------------------------------------------------

  function IdsOf(nodes: seq<Node>): set<string>
  {
    set k | 0 <= k < |nodes| :: nodes[k].id
  }

  lemma IdsConcat(a: seq<Node>, b: seq<Node>)
    ensures IdsOf(a + b) == IdsOf(a) + IdsOf(b)
  {
    forall id | id in IdsOf(a) + IdsOf(b)
      ensures id in IdsOf(a + b)
    {
      if id in IdsOf(a) {
        var k :| 0 <= k < |a| && a[k].id == id;
        assert (a + b)[k] == a[k];
      } else {
        var k :| 0 <= k < |b| && b[k].id == id;
        assert (a + b)[|a| + k] == b[k];
      }
    }
  }

  lemma IdsOfOne(n: Node)
    ensures IdsOf([n]) == {n.id}
  {
    assert [n][0] == n;
    assert forall id :: id in IdsOf([n]) ==> id == n.id;
  }

  /** Every edge in `ops` joins ids that are in `known` or were added by an
      earlier call in `ops`. */
  predicate ClosedAfter(known: set<string>, ops: seq<Op>)
  {
    forall t :: 0 <= t < |ops| && ops[t].AddEdgeOp? ==>
      ops[t].edge.fromId in known + IdsOf(NodesOf(ops[..t])) &&
      ops[t].edge.toId in known + IdsOf(NodesOf(ops[..t]))
  }

  lemma ClosedConcat(known: set<string>, a: seq<Op>, b: seq<Op>)
    requires ClosedAfter(known, a)
    requires ClosedAfter(known + IdsOf(NodesOf(a)), b)
    ensures ClosedAfter(known, a + b)
  {
    forall t | 0 <= t < |a + b| && (a + b)[t].AddEdgeOp?
      ensures (a + b)[t].edge.fromId in known + IdsOf(NodesOf((a + b)[..t]))
      ensures (a + b)[t].edge.toId in known + IdsOf(NodesOf((a + b)[..t]))
    {
      if t < |a| {
        assert (a + b)[..t] == a[..t];
      } else {
        var u := t - |a|;
        assert (a + b)[..t] == a + b[..u];
        assert (a + b)[t] == b[u];
        NodesConcat(a, b[..u]);
        IdsConcat(NodesOf(a), NodesOf(b[..u]));
      }
    }
  }

  lemma ClosedWider(known: set<string>, wider: set<string>, ops: seq<Op>)
    requires ClosedAfter(known, ops) && known <= wider
    ensures ClosedAfter(wider, ops)
  {
  }

  /** A node followed by an edge from a known id to that node. */
  lemma PairClosed(known: set<string>, n: Node, e: Edge)
    requires e.fromId in known && e.toId == n.id
    ensures ClosedAfter(known, [AddNodeOp(n), AddEdgeOp(e)])
    ensures IdsOf(NodesOf([AddNodeOp(n), AddEdgeOp(e)])) == {n.id}
  {
    PairOps(n, e);
    var ops := [AddNodeOp(n), AddEdgeOp(e)];
    assert ops[..1] == [AddNodeOp(n)];
    assert NodesOf(ops[..1]) == [n] by {
      assert [AddNodeOp(n)][1..] == [];
    }
    IdsOfOne(n);
  }

  /** A step whose pair hangs off a known id and whose rest is closed once the
      pair's node is known. */
  lemma StepClosed(known: set<string>, n: Node, e: Edge, rest: seq<Op>)
    requires e.fromId in known && e.toId == n.id
    requires ClosedAfter(known + {n.id}, rest)
    ensures ClosedAfter(known, [AddNodeOp(n), AddEdgeOp(e)] + rest)
  {
    PairClosed(known, n, e);
    ClosedConcat(known, [AddNodeOp(n), AddEdgeOp(e)], rest);
  }

  /** Appending a step closed relative to a wider set of known ids. */
  lemma AppendClosed(known: set<string>, done: seq<Op>, step: seq<Op>)
    requires ClosedAfter(known, done) && ClosedAfter(known, step)
    ensures ClosedAfter(known, done + step)
  {
    ClosedWider(known, known + IdsOf(NodesOf(done)), step);
    ClosedConcat(known, done, step);
  }

  lemma {:induction false} CallsClosed(known: set<string>, projectId: string, parentId: string, calls: seq<Call>)
    requires parentId in known
    ensures ClosedAfter(known, CallOps(projectId, parentId, calls))
  {
    if calls != [] {
      var c := calls[|calls| - 1];
      var targetId := TargetId(projectId, c.target);
      CallsClosed(known, projectId, parentId, calls[..|calls| - 1]);
      StepClosed(known, Node(targetId, CallTargetNode, c.target), Edge(parentId, targetId, c.kind), []);
      assert CallStep(projectId, parentId, c) == CallStep(projectId, parentId, c) + [];
      AppendClosed(known, CallOps(projectId, parentId, calls[..|calls| - 1]), CallStep(projectId, parentId, c));
    }
  }

  lemma {:induction false} EventsClosed(known: set<string>, projectId: string, formId: string, events: seq<FrmEvent>)
    requires formId in known
    ensures ClosedAfter(known, EventOps(projectId, formId, events))
  {
    if events != [] {
      var e := events[|events| - 1];
      var eventId := EventId(formId, e);
      EventsClosed(known, projectId, formId, events[..|events| - 1]);
      CallsClosed(known + {eventId}, projectId, eventId, e.calls);
      StepClosed(known, Node(eventId, EventNode, e.name), Edge(formId, eventId, "HAS_EVENT"), CallOps(projectId, eventId, e.calls));
      AppendClosed(known, EventOps(projectId, formId, events[..|events| - 1]), EventStep(projectId, formId, e));
    }
  }

  lemma {:induction false} FormsClosed(known: set<string>, projectId: string, forms: seq<FrmAnalysis>)
    requires projectId in known
    ensures ClosedAfter(known, FormOps(projectId, forms))
  {
    if forms != [] {
      var f := forms[|forms| - 1];
      var formId := FormId(projectId, f);
      FormsClosed(known, projectId, forms[..|forms| - 1]);
      EventsClosed(known + {formId}, projectId, formId, f.events);
      StepClosed(known, Node(formId, FormNode, NullSafe(f.formName, "(form)")), Edge(projectId, formId, "HAS_FORM"),
                 EventOps(projectId, formId, f.events));
      AppendClosed(known, FormOps(projectId, forms[..|forms| - 1]), FormStep(projectId, f));
    }
  }

  lemma {:induction false} RoutinesClosed(known: set<string>, projectId: string, moduleId: string, routines: seq<BasRoutine>)
    requires moduleId in known
    ensures ClosedAfter(known, RoutineOps(projectId, moduleId, routines))
  {
    if routines != [] {
      var r := routines[|routines| - 1];
      var routineId := RoutineId(moduleId, r);
      RoutinesClosed(known, projectId, moduleId, routines[..|routines| - 1]);
      CallsClosed(known + {routineId}, projectId, routineId, r.calls);
      StepClosed(known, Node(routineId, RoutineNode, r.name), Edge(moduleId, routineId, r.kind), CallOps(projectId, routineId, r.calls));
      AppendClosed(known, RoutineOps(projectId, moduleId, routines[..|routines| - 1]), RoutineStep(projectId, moduleId, r));
    }
  }

  lemma {:induction false} ModulesClosed(known: set<string>, projectId: string, modules: seq<BasAnalysis>)
    requires projectId in known
    ensures ClosedAfter(known, ModuleOps(projectId, modules))
  {
    if modules != [] {
      var m := modules[|modules| - 1];
      var moduleId := ModuleId(projectId, m);
      ModulesClosed(known, projectId, modules[..|modules| - 1]);
      RoutinesClosed(known + {moduleId}, projectId, moduleId, m.routines);
      StepClosed(known, Node(moduleId, ModuleNode, NullSafe(m.moduleName, "(module)")), Edge(projectId, moduleId, "HAS_MODULE"),
                 RoutineOps(projectId, moduleId, m.routines));
      AppendClosed(known, ModuleOps(projectId, modules[..|modules| - 1]), ModuleStep(projectId, m));
    }
  }

  lemma ProjectClosed(known: set<string>, s: ProjectSummary)
    ensures ClosedAfter(known, ProjectStep(s))
  {
    var projectId := ProjectId(s);
    var projectNode := Node(projectId, ProjectNode, NullSafe(s.project.name, "(project)"));
    var parts := FormOps(projectId, s.forms) + ModuleOps(projectId, s.modules);
    PartsClosed(known + {projectId}, projectId, s.forms, s.modules);
    HeadClosed(known, projectNode, parts);
    assert ProjectStep(s) == [AddNodeOp(projectNode)] + parts;
  }

  /** A node followed by calls that are closed once its id is known. */
  lemma HeadClosed(known: set<string>, n: Node, rest: seq<Op>)
    requires ClosedAfter(known + {n.id}, rest)
    ensures ClosedAfter(known, [AddNodeOp(n)] + rest)
  {
    var head := [AddNodeOp(n)];
    assert head[1..] == [];
    assert NodesOf(head) == [n];
    IdsOfOne(n);
    ClosedConcat(known, head, rest);
  }

  lemma PartsClosed(known: set<string>, projectId: string, forms: seq<FrmAnalysis>, modules: seq<BasAnalysis>)
    requires projectId in known
    ensures ClosedAfter(known, FormOps(projectId, forms) + ModuleOps(projectId, modules))
  {
    FormsClosed(known, projectId, forms);
    ModulesClosed(known, projectId, modules);
    AppendClosed(known, FormOps(projectId, forms), ModuleOps(projectId, modules));
  }

  /** Every edge build adds joins two ids of nodes added before it. */
  lemma {:induction false} BuildClosed(projects: seq<ProjectSummary>)
    ensures ClosedAfter({}, BuildOps(projects))
  {
    if projects != [] {
      BuildClosed(projects[..|projects| - 1]);
      ProjectClosed({}, projects[|projects| - 1]);
      AppendClosed({}, BuildOps(projects[..|projects| - 1]), ProjectStep(projects[|projects| - 1]));
    }
  }

  // ---------------------------------------------------------------------
  // Ids of call targets, edge labels, node kinds
  // ---------------------------------------------------------------------

  /** A call on the model that adds no node of a `banned` type, labels its
      edge from `labels`, and gives a call target the id the project's id
      and the target make. */
  predicate OpWithin(projectId: string, labels: set<string>, banned: set<NodeType>, op: Op)
  {
    match op
    case AddNodeOp(n) => n.nodeType !in banned && (n.nodeType == CallTargetNode ==> n.id == TargetId(projectId, n.caption))
    case AddEdgeOp(e) => e.relation in labels
  }

  predicate AllWithin(projectId: string, labels: set<string>, banned: set<NodeType>, ops: seq<Op>)
  {
    forall op :: op in ops ==> OpWithin(projectId, labels, banned, op)
  }

  lemma {:induction false} CallsWithin(projectId: string, parentId: string, calls: seq<Call>, labels: set<string>, banned: set<NodeType>)
    requires CallTargetNode !in banned
    requires forall c :: c in calls ==> c.kind in labels
    ensures AllWithin(projectId, labels, banned, CallOps(projectId, parentId, calls))
  {
    if calls != [] {
      CallsWithin(projectId, parentId, calls[..|calls| - 1], labels, banned);
    }
  }

  lemma {:induction false} EventsWithin(projectId: string, formId: string, events: seq<FrmEvent>, labels: set<string>, banned: set<NodeType>)
    requires CallTargetNode !in banned && EventNode !in banned && "HAS_EVENT" in labels
    requires forall e, c :: e in events && c in e.calls ==> c.kind in labels
    ensures AllWithin(projectId, labels, banned, EventOps(projectId, formId, events))
  {
    if events != [] {
      var e := events[|events| - 1];
      EventsWithin(projectId, formId, events[..|events| - 1], labels, banned);
      CallsWithin(projectId, EventId(formId, e), e.calls, labels, banned);
    }
  }

  lemma {:induction false} FormsWithin(projectId: string, forms: seq<FrmAnalysis>, labels: set<string>, banned: set<NodeType>)
    requires CallTargetNode !in banned && EventNode !in banned && FormNode !in banned
    requires "HAS_EVENT" in labels && "HAS_FORM" in labels
    requires forall f, e, c :: f in forms && e in f.events && c in e.calls ==> c.kind in labels
    ensures AllWithin(projectId, labels, banned, FormOps(projectId, forms))
  {
    if forms != [] {
      var f := forms[|forms| - 1];
      FormsWithin(projectId, forms[..|forms| - 1], labels, banned);
      EventsWithin(projectId, FormId(projectId, f), f.events, labels, banned);
    }
  }

  lemma {:induction false} RoutinesWithin(projectId: string, moduleId: string, routines: seq<BasRoutine>, labels: set<string>, banned: set<NodeType>)
    requires CallTargetNode !in banned && RoutineNode !in banned
    requires forall r :: r in routines ==> r.kind in labels
    requires forall r, c :: r in routines && c in r.calls ==> c.kind in labels
    ensures AllWithin(projectId, labels, banned, RoutineOps(projectId, moduleId, routines))
  {
    if routines != [] {
      var r := routines[|routines| - 1];
      RoutinesWithin(projectId, moduleId, routines[..|routines| - 1], labels, banned);
      CallsWithin(projectId, RoutineId(moduleId, r), r.calls, labels, banned);
    }
  }

  lemma {:induction false} ModulesWithin(projectId: string, modules: seq<BasAnalysis>, labels: set<string>, banned: set<NodeType>)
    requires CallTargetNode !in banned && RoutineNode !in banned && ModuleNode !in banned
    requires "HAS_MODULE" in labels
    requires forall m, r :: m in modules && r in m.routines ==> r.kind in labels
    requires forall m, r, c :: m in modules && r in m.routines && c in r.calls ==> c.kind in labels
    ensures AllWithin(projectId, labels, banned, ModuleOps(projectId, modules))
  {
    if modules != [] {
      var m := modules[|modules| - 1];
      ModulesWithin(projectId, modules[..|modules| - 1], labels, banned);
      RoutinesWithin(projectId, ModuleId(projectId, m), m.routines, labels, banned);
    }
  }

  /** The relation labels a project's analysis can put on edges. */
  predicate LabelsCover(s: ProjectSummary, labels: set<string>)
  {
    {"HAS_FORM", "HAS_EVENT", "HAS_MODULE"} <= labels &&
    (forall f, e, c :: f in s.forms && e in f.events && c in e.calls ==> c.kind in labels) &&
    (forall m, r :: m in s.modules && r in m.routines ==> r.kind in labels) &&
    (forall m, r, c :: m in s.modules && r in m.routines && c in r.calls ==> c.kind in labels)
  }

  /** Every label one project's pass can use. */
  lemma AllLabels(s: ProjectSummary) returns (labels: set<string>)
    ensures LabelsCover(s, labels)
  {
    labels := {"HAS_FORM", "HAS_EVENT", "HAS_MODULE"}
      + (set f, e, c | f in s.forms && e in f.events && c in e.calls :: c.kind)
      + (set m, r | m in s.modules && r in m.routines :: r.kind)
      + (set m, r, c | m in s.modules && r in m.routines && c in r.calls :: c.kind);
  }

  predicate ModuleSide(op: Op) { op.AddNodeOp? && op.node.nodeType in {ModuleNode, RoutineNode} }
  predicate FormSide(op: Op) { op.AddNodeOp? && op.node.nodeType in {FormNode, EventNode} }

  /** No module-side call comes before a form-side call in `a + b` when `a`
      has no module-side call and `b` no form-side call. */
  lemma SidesInOrder(a: seq<Op>, b: seq<Op>)
    requires forall op :: op in a ==> !ModuleSide(op)
    requires forall op :: op in b ==> !FormSide(op)
    ensures forall i, j :: 0 <= i < j < |a + b| ==> !(ModuleSide((a + b)[i]) && FormSide((a + b)[j]))
  {
    forall i, j | 0 <= i < j < |a + b|
      ensures !(ModuleSide((a + b)[i]) && FormSide((a + b)[j]))
    {
      if i < |a| {
        assert (a + b)[i] == a[i];
      } else {
        assert (a + b)[j] == b[j - |a|];
      }
    }
  }

  /** Within one project's part of the graph, every call-target node's id is
      the project's id, ":call:" and the target, whatever form, event, module
      or routine the call came from, and every edge is labelled HAS_FORM,
      HAS_EVENT, HAS_MODULE, a routine's kind or a call's type. */
  lemma ProjectWithin(s: ProjectSummary, labels: set<string>)
    requires LabelsCover(s, labels)
    ensures forall op :: op in ProjectStep(s) && op.AddNodeOp? && op.node.nodeType == CallTargetNode ==>
              op.node.id == TargetId(ProjectId(s), op.node.caption)
    ensures forall op :: op in ProjectStep(s) && op.AddEdgeOp? ==> op.edge.relation in labels
  {
    var projectId := ProjectId(s);
    var head := [AddNodeOp(Node(projectId, ProjectNode, NullSafe(s.project.name, "(project)")))];
    var formOps, moduleOps := FormOps(projectId, s.forms), ModuleOps(projectId, s.modules);
    assert ProjectStep(s) == head + formOps + moduleOps;
    FormsWithin(projectId, s.forms, labels, {});
    ModulesWithin(projectId, s.modules, labels, {});
    WithinConcat(projectId, labels, {}, head, formOps);
    WithinConcat(projectId, labels, {}, head + formOps, moduleOps);
  }

  lemma WithinConcat(projectId: string, labels: set<string>, banned: set<NodeType>, a: seq<Op>, b: seq<Op>)
    requires AllWithin(projectId, labels, banned, a) && AllWithin(projectId, labels, banned, b)
    ensures AllWithin(projectId, labels, banned, a + b)
  {
  }

  /** Within one project, every form or event node is added before any
      module or routine node. */
  lemma FormsBeforeModules(s: ProjectSummary)
    ensures forall i, j :: 0 <= i < j < |ProjectStep(s)| ==>
              !(ModuleSide(ProjectStep(s)[i]) && FormSide(ProjectStep(s)[j]))
  {
    var projectId := ProjectId(s);
    var head := [AddNodeOp(Node(projectId, ProjectNode, NullSafe(s.project.name, "(project)")))];
    var labels := AllLabels(s);
    FormsWithin(projectId, s.forms, labels, {ModuleNode, RoutineNode});
    ModulesWithin(projectId, s.modules, labels, {FormNode, EventNode});
    SidesInOrder(head + FormOps(projectId, s.forms), ModuleOps(projectId, s.modules));
  }
}
