/**
 The reconciliation journal as the read fence meets it: one record per group of
 journal rows, the two stores (PostgreSQL rows, the Neo4j graph with its fence
 nodes), and one event per atomic statement or transaction.
 */
module Journal {
  import opened Wrappers

  type Id = string
  type Props = map<string, string>

  datatype Edge = Edge(from: Id, kind: string, to: Id)

  /** The CIs of one organization and the relationships between them. */
  datatype Graph = Graph(nodes: map<Id, Props>, edges: map<Edge, Props>)

  /** The W statements; `restore` writes as `update` does. */
  datatype GraphWrite =
    | CreateCI(id: Id, props: Props)
    | UpdateCI(id: Id, props: Props)
    | DeleteCI(id: Id)
    | CreateRelationship(edge: Edge, props: Props)
    | DeleteRelationship(edge: Edge)

  function Touches(w: GraphWrite): set<Id> {
    match w
    case CreateCI(id, _) => {id}
    case UpdateCI(id, _) => {id}
    case DeleteCI(id) => {id}
    case CreateRelationship(e, _) => {e.from, e.to}
    case DeleteRelationship(e) => {e.from, e.to}
  }

  /** The graph after `w`, or None when the statement matches nothing or violates a constraint. */
  function Apply(w: GraphWrite, g: Graph): Option<Graph> {
    match w
    case CreateCI(id, props) =>
      if id in g.nodes then None else Some(g.(nodes := g.nodes[id := props]))
    case UpdateCI(id, props) =>
      if id in g.nodes then Some(g.(nodes := g.nodes[id := g.nodes[id] + props])) else None
    case DeleteCI(id) =>
      if id in g.nodes then
        Some(Graph(g.nodes - {id}, map e | e in g.edges && e.from != id && e.to != id :: g.edges[e]))
      else None
    case CreateRelationship(e, props) =>
      if e.from in g.nodes && e.to in g.nodes then
        Some(g.(edges := g.edges[e := (if e in g.edges then g.edges[e] else map[]) + props]))
      else None
    case DeleteRelationship(e) =>
      if e in g.edges then Some(g.(edges := g.edges - {e})) else None
  }

  /** What a query that excludes the ids in `hidden` can see. */
  function View(g: Graph, hidden: set<Id>): Graph {
    Graph(map n | n in g.nodes && n !in hidden :: g.nodes[n],
          map e | e in g.edges && e.from !in hidden && e.to !in hidden :: g.edges[e])
  }

  /** A W statement is invisible to every reader that hides the CIs the statement names. */
  lemma WriteIsHidden(w: GraphWrite, g: Graph, hidden: set<Id>)
    requires Apply(w, g).Some? && Touches(w) <= hidden
    ensures View(Apply(w, g).value, hidden) == View(g, hidden)
  {
    var g' := Apply(w, g).value;
    assert forall id :: id in Touches(w) ==> id in hidden;
    assert View(g', hidden).nodes == View(g, hidden).nodes;
    assert View(g', hidden).edges == View(g, hidden).edges;
  }

  datatype OpState = Pending | Committed | Aborted | Failed

  /** Where the request that reserved the group is: planning, ready to send W, without a graph effect, or over. */
  datatype Request = Planning | Sending(w: GraphWrite) | NoEffect | Over

  /** The outcome stored on the unique :ReconciliationOp node of one journal row. */
  datatype Fence = Applied | Refused

  datatype Group = Group(cis: set<Id>, state: OpState, request: Request, fences: map<Id, Fence>)

  /** One organization: its rows, its part of the graph, and the sessions holding its admission lock shared. */
  datatype Org = Org(epoch: nat, groups: map<nat, Group>, graph: Graph, shared: set<nat>)

  const FRESH_ORG := Org(0, map[], Graph(map[], map[]), {})

  const MAX_INFLIGHT_PER_ORG: nat := 1000

  predicate Open(g: Group) {
    g.state == Pending || g.state == Failed
  }

  /** The CIs with a pending or failed row. */
  function Gap(o: Org): set<Id> {
    GapOf(o.groups)
  }

  function GapOf(groups: map<nat, Group>): set<Id> {
    set g, c | g in groups && Open(groups[g]) && c in groups[g].cis :: c
  }

  datatype JournalEvent =
    | T1(g: nat, cis: set<Id>)
    | T1b(g: nat, w: Option<GraphWrite>)
    | RequestAbort(g: nat)
    | W(g: nat)
    | T2(g: nat)
    | SweepFence(g: nat, c: Id)
    | SweepAbort(g: nat)
    | Fail(g: nat)
    | Requeue(g: nat)

  predicate HasFence(g: Group, f: Fence) {
    exists c :: c in g.fences && g.fences[c] == f
  }

  /** Whether the event can happen now. T1 holds the admission lock exclusively up to its commit. */
  predicate Enabled(o: Org, e: JournalEvent) {
    match e
    case T1(g, cis) =>
      && g !in o.groups && cis !! Gap(o) && o.shared == {}
      && |Gap(o)| + |cis| <= MAX_INFLIGHT_PER_ORG
    case T1b(g, w) =>
      && g in o.groups && o.groups[g].state == Pending && o.groups[g].request == Planning
      && (w.Some? ==> Touches(w.value) <= o.groups[g].cis)
    case RequestAbort(g) =>
      g in o.groups && (o.groups[g].request.Planning? || o.groups[g].request.Sending?)
      && !HasFence(o.groups[g], Applied)
    case W(g) =>
      // One auto-commit statement: any existing fence of the group violates the op_id constraint.
      && g in o.groups && o.groups[g].request.Sending? && o.groups[g].fences == map[]
      && Apply(o.groups[g].request.w, o.graph).Some?
    case T2(g) =>
      g in o.groups && o.groups[g].state == Pending
      && (o.groups[g].request == NoEffect || HasFence(o.groups[g], Applied))
    case SweepFence(g, c) =>
      g in o.groups && c in o.groups[g].cis && c !in o.groups[g].fences
    case SweepAbort(g) =>
      g in o.groups && o.groups[g].state == Pending && HasFence(o.groups[g], Refused)
    case Fail(g) => g in o.groups && o.groups[g].state == Pending
    case Requeue(g) => g in o.groups && o.groups[g].state == Failed
  }

  function SetGroup(o: Org, g: nat, group: Group): Org {
    o.(groups := o.groups[g := group])
  }

  function Step(o: Org, e: JournalEvent): Org
    requires Enabled(o, e)
  {
    match e
    case T1(g, cis) =>
      SetGroup(o, g, Group(cis, Pending, Planning, map[])).(epoch := o.epoch + 1)
    case T1b(g, w) =>
      SetGroup(o, g, o.groups[g].(request := if w.Some? then Sending(w.value) else NoEffect))
    case RequestAbort(g) =>
      var group := o.groups[g];
      SetGroup(o, g, group.(request := Over, state := if group.state == Pending then Aborted else group.state))
    case W(g) =>
      var group := o.groups[g];
      SetGroup(o, g,
               group.(fences := map c | c in group.cis :: Applied)).(graph := Apply(group.request.w, o.graph).value)
    case T2(g) => SetGroup(o, g, o.groups[g].(state := Committed))
    case SweepFence(g, c) => SetGroup(o, g, o.groups[g].(fences := o.groups[g].fences[c := Refused]))
    case SweepAbort(g) => SetGroup(o, g, o.groups[g].(state := Aborted))
    case Fail(g) => SetGroup(o, g, o.groups[g].(state := Failed))
    case Requeue(g) => SetGroup(o, g, o.groups[g].(state := Pending))
  }

  /** A closed group can no longer reach the graph: its request is done, or a fence already decides it. */
  ghost predicate GroupInv(g: Group) {
    && (g.request.Sending? ==> Touches(g.request.w) <= g.cis)
    && (!Open(g) ==> g.fences != map[] || g.request == NoEffect || g.request == Over)
  }

  ghost predicate Inv(o: Org) {
    && (forall g :: g in o.groups ==> GroupInv(o.groups[g]))
    && |Gap(o)| <= MAX_INFLIGHT_PER_ORG
  }

  /** An update that opens no group opens no gap. */
  lemma UpdateOpensNoGap(o: Org, g: nat, group: Group)
    requires g in o.groups && group.cis == o.groups[g].cis && (Open(group) ==> Open(o.groups[g]))
    ensures GapOf(o.groups[g := group]) <= Gap(o)
  {
    var after := o.groups[g := group];
    forall c | c in GapOf(after) ensures c in Gap(o) {
      var h :| h in after && Open(after[h]) && c in after[h].cis;
      assert h in o.groups && Open(o.groups[h]) && c in o.groups[h].cis;
    }
  }

  lemma InsertOpensItsGap(o: Org, g: nat, group: Group)
    requires g !in o.groups && Open(group)
    ensures GapOf(o.groups[g := group]) == Gap(o) + group.cis
  {
    var after := o.groups[g := group];
    forall c | c in GapOf(after) ensures c in Gap(o) + group.cis {
      var h :| h in after && Open(after[h]) && c in after[h].cis;
      assert h == g || (h in o.groups && Open(o.groups[h]) && c in o.groups[h].cis);
    }
    forall c | c in Gap(o) ensures c in GapOf(after) {
      var h :| h in o.groups && Open(o.groups[h]) && c in o.groups[h].cis;
      assert h in after && Open(after[h]) && c in after[h].cis;
    }
    assert g in after && after[g] == group;
  }

  /** Only T1 adds to the gap, and only T1 moves the epoch. */
  lemma GapMonotone(o: Org, e: JournalEvent)
    requires Enabled(o, e)
    ensures e.T1? ==> Gap(Step(o, e)) == Gap(o) + e.cis
    ensures !e.T1? ==> Gap(Step(o, e)) <= Gap(o) && Step(o, e).epoch == o.epoch
  {
    var after := Step(o, e).groups[e.g];
    if e.T1? {
      InsertOpensItsGap(o, e.g, after);
    } else {
      UpdateOpensNoGap(o, e.g, after);
    }
  }

  lemma StepKeepsGroup(o: Org, e: JournalEvent)
    requires Inv(o) && Enabled(o, e)
    ensures GroupInv(Step(o, e).groups[e.g])
  {
    if !e.T1? {
      assert GroupInv(o.groups[e.g]);
    }
  }

  lemma StepKeepsCap(o: Org, e: JournalEvent)
    requires |Gap(o)| <= MAX_INFLIGHT_PER_ORG && Enabled(o, e)
    ensures |Gap(Step(o, e))| <= MAX_INFLIGHT_PER_ORG
  {
    GapMonotone(o, e);
    if e.T1? {
      SizeOfUnion(Gap(o), e.cis);
    } else {
      SizeOfSubset(Gap(Step(o, e)), Gap(o));
    }
  }

  /** Every journal statement keeps the invariant; no group re-enters the graph once its gap is closed. */
  lemma StepKeepsInv(o: Org, e: JournalEvent)
    requires Inv(o) && Enabled(o, e)
    ensures Inv(Step(o, e))
  {
    var o' := Step(o, e);
    StepKeepsGroup(o, e);
    StepKeepsCap(o, e);
    forall g | g in o'.groups ensures GroupInv(o'.groups[g]) {
      assert g != e.g ==> g in o.groups && o'.groups[g] == o.groups[g];
    }
  }

  lemma SizeOfUnion<T>(a: set<T>, b: set<T>)
    ensures |a + b| <= |a| + |b|
  {
  }

  lemma SizeOfSubset<T>(a: set<T>, b: set<T>)
    requires a <= b
    ensures |a| <= |b|
    ensures |a| == |b| ==> a == b
  {
    assert b == a + (b - a);
    assert |b| == |a| + |b - a|;
  }

  /** The graph is written only under an open gap: a reader that hides every pending and failed CI sees no change. */
  lemma StepIsHidden(o: Org, e: JournalEvent, hidden: set<Id>)
    requires Inv(o) && Enabled(o, e) && Gap(o) <= hidden
    ensures View(Step(o, e).graph, hidden) == View(o.graph, hidden)
  {
    if e.W? {
      var group := o.groups[e.g];
      assert GroupInv(group) && Open(group);
      assert forall c :: c in group.cis ==> c in Gap(o);
      WriteIsHidden(group.request.w, o.graph, hidden);
    }
  }
}
