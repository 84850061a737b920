/**
  The Neo4J ingestor: the record lists built from one ego network, and the
  MERGE/MATCH statements that write them, modelled as set updates on a graph.
 */
module GraphIngest {
  import opened Wrappers
  import opened PyDict
  import opened Chunking

  // ---------------------------------------------------------------- record lists

  datatype CircleRecord = CircleRecord(id: string, ego: string)
  datatype MembershipRecord = MembershipRecord(user: string, circle: string)
  datatype FeatureRecord = FeatureRecord(group: string, feature: string)
  datatype FollowRecord = FollowRecord(src: string, dst: string)
  datatype HasFeatureRecord = HasFeatureRecord(id: string, feature: string)

  /** Every list `ingestEgoNetwork` builds before its first write. */
  datatype EgoRecords = EgoRecords(
    ego: string,
    circs: seq<CircleRecord>,
    memberships: seq<MembershipRecord>,
    users: seq<string>,
    featGroups: seq<string>,
    featGroupMap: seq<FeatureRecord>,
    egoFollows: seq<FollowRecord>,
    featureMap: seq<HasFeatureRecord>,
    egoFeatureMap: seq<HasFeatureRecord>,
    follows: seq<FollowRecord>)

  /** The `KeyError` of `ego_features[ego_id]`. */
  datatype MissingKey = MissingKey(key: string)

  function Memberships(circles: Dict<string, seq<string>>): seq<MembershipRecord> {
    var ps := Pairs(circles);
    seq(|ps|, i requires 0 <= i < |ps| => MembershipRecord(ps[i].1, ps[i].0))
  }

  function FeatureMap(nodeFeatures: Dict<string, seq<string>>): seq<HasFeatureRecord> {
    var ps := Pairs(nodeFeatures);
    seq(|ps|, i requires 0 <= i < |ps| => HasFeatureRecord(ps[i].0, ps[i].1))
  }

  /**
    The record lists of `ingestEgoNetwork`, with the iteration order of the set
    `feat_groups` supplied as `groupOrder`. The only failure is a missing
    `ego_features[ego_id]`.
   */
  function BuildRecords(
    egoId: string, edges: seq<(string, string)>, feats: seq<(string, string)>,
    nodeFeatures: Dict<string, seq<string>>, egoFeatures: Dict<string, seq<string>>,
    circles: Dict<string, seq<string>>, groupOrder: seq<string>): (r: Result<EgoRecords, MissingKey>)
    requires EnumeratesSet(groupOrder, GroupNames(feats))
    ensures r.Err? <==> egoId !in Keys(egoFeatures)
    ensures r.Err? ==> r.error == MissingKey(egoId)
    ensures r.Ok? ==> r.value.ego == egoId
    ensures r.Ok? ==> (|r.value.circs| == |circles|
      && forall i | 0 <= i < |circles| :: r.value.circs[i] == CircleRecord(Keys(circles)[i], egoId))
    ensures r.Ok? ==> |r.value.memberships| == TotalLength(circles) && r.value.memberships == Memberships(circles)
    ensures r.Ok? ==> r.value.users == Keys(nodeFeatures)
    ensures r.Ok? ==> EnumeratesSet(r.value.featGroups, GroupNames(feats))
    ensures r.Ok? ==> (|r.value.featGroupMap| == |feats|
      && forall i | 0 <= i < |feats| :: r.value.featGroupMap[i] == FeatureRecord(feats[i].0, feats[i].1))
    ensures r.Ok? ==> (|r.value.egoFollows| == |nodeFeatures|
      && forall i | 0 <= i < |nodeFeatures| :: r.value.egoFollows[i] == FollowRecord(egoId, Keys(nodeFeatures)[i]))
    ensures r.Ok? ==> |r.value.featureMap| == TotalLength(nodeFeatures) && r.value.featureMap == FeatureMap(nodeFeatures)
    ensures r.Ok? ==> var names := Get(egoFeatures, egoId).value;
      |r.value.egoFeatureMap| == |names|
      && forall i | 0 <= i < |names| :: r.value.egoFeatureMap[i] == HasFeatureRecord(egoId, names[i])
    ensures r.Ok? ==> (|r.value.follows| == |edges|
      && forall i | 0 <= i < |edges| :: r.value.follows[i] == FollowRecord(edges[i].0, edges[i].1))
  {
    match Get(egoFeatures, egoId)
    case None => Err(MissingKey(egoId))
    case Some(names) =>
      PairsLength(circles);
      PairsLength(nodeFeatures);
      Ok(EgoRecords(
        egoId,
        seq(|circles|, i requires 0 <= i < |circles| => CircleRecord(circles[i].0, egoId)),
        Memberships(circles),
        Keys(nodeFeatures),
        groupOrder,
        seq(|feats|, i requires 0 <= i < |feats| => FeatureRecord(feats[i].0, feats[i].1)),
        seq(|nodeFeatures|, i requires 0 <= i < |nodeFeatures| => FollowRecord(egoId, nodeFeatures[i].0)),
        FeatureMap(nodeFeatures),
        seq(|names|, i requires 0 <= i < |names| => HasFeatureRecord(egoId, names[i])),
        seq(|edges|, i requires 0 <= i < |edges| => FollowRecord(edges[i].0, edges[i].1))))
  }

  /** The users recorded as members of circle `c`, in record order. */
  function MembersRecorded(ms: seq<MembershipRecord>, c: string): seq<string> {
    if ms == [] then []
    else (if ms[0].circle == c then [ms[0].user] else []) + MembersRecorded(ms[1..], c)
  }

  /** The features recorded for node `n`, in record order. */
  function FeaturesRecorded(fs: seq<HasFeatureRecord>, n: string): seq<string> {
    if fs == [] then []
    else (if fs[0].id == n then [fs[0].feature] else []) + FeaturesRecorded(fs[1..], n)
  }

  lemma {:induction false} MembersRecordedPairs(ps: seq<(string, string)>, c: string)
    ensures MembersRecorded(seq(|ps|, i requires 0 <= i < |ps| => MembershipRecord(ps[i].1, ps[i].0)), c)
         == ValuesFor(ps, c)
  {
    if ps != [] {
      var ms := seq(|ps|, i requires 0 <= i < |ps| => MembershipRecord(ps[i].1, ps[i].0));
      var tail := ps[1..];
      assert ms[1..] == seq(|tail|, i requires 0 <= i < |tail| => MembershipRecord(tail[i].1, tail[i].0));
      MembersRecordedPairs(tail, c);
    }
  }

  lemma {:induction false} FeaturesRecordedPairs(ps: seq<(string, string)>, n: string)
    ensures FeaturesRecorded(seq(|ps|, i requires 0 <= i < |ps| => HasFeatureRecord(ps[i].0, ps[i].1)), n)
         == ValuesFor(ps, n)
  {
    if ps != [] {
      var fs := seq(|ps|, i requires 0 <= i < |ps| => HasFeatureRecord(ps[i].0, ps[i].1));
      var tail := ps[1..];
      assert fs[1..] == seq(|tail|, i requires 0 <= i < |tail| => HasFeatureRecord(tail[i].0, tail[i].1));
      FeaturesRecordedPairs(tail, n);
    }
  }

  /**
    One membership record per (circle, member) pair: the records naming circle `c`
    list exactly its members, in order and with duplicates kept.
   */
  lemma MembershipsPerCircle(circles: Dict<string, seq<string>>, c: string)
    requires Valid(circles)
    ensures MembersRecorded(Memberships(circles), c) == Get(circles, c).GetOr([])
  {
    MembersRecordedPairs(Pairs(circles), c);
    PairsValuesFor(circles, c);
  }

  /** The feature records naming node `n` list exactly its active features, in order. */
  lemma FeatureMapPerNode(nodeFeatures: Dict<string, seq<string>>, n: string)
    requires Valid(nodeFeatures)
    ensures FeaturesRecorded(FeatureMap(nodeFeatures), n) == Get(nodeFeatures, n).GetOr([])
  {
    FeaturesRecordedPairs(Pairs(nodeFeatures), n);
    PairsValuesFor(nodeFeatures, n);
  }

  /**
    In the records `ingestEgoNetwork` builds, the membership records naming a circle list
    exactly its members, and the feature records naming a node exactly its active
    features, in order and with duplicates kept.
   */
  lemma RecordsPerCircleAndNode(
    egoId: string, edges: seq<(string, string)>, feats: seq<(string, string)>,
    nodeFeatures: Dict<string, seq<string>>, egoFeatures: Dict<string, seq<string>>,
    circles: Dict<string, seq<string>>, groupOrder: seq<string>, c: string, n: string)
    requires EnumeratesSet(groupOrder, GroupNames(feats)) && Valid(circles) && Valid(nodeFeatures)
    requires BuildRecords(egoId, edges, feats, nodeFeatures, egoFeatures, circles, groupOrder).Ok?
    ensures var recs := BuildRecords(egoId, edges, feats, nodeFeatures, egoFeatures, circles, groupOrder).value;
      && MembersRecorded(recs.memberships, c) == Get(circles, c).GetOr([])
      && FeaturesRecorded(recs.featureMap, n) == Get(nodeFeatures, n).GetOr([])
  {
    MembershipsPerCircle(circles, c);
    FeatureMapPerNode(nodeFeatures, n);
  }

  // ---------------------------------------------------------------- the graph

  /** Node labels with their key property: `Circle` by `id`, `FeatName` by `name` only. */
  datatype Node = Ego(id: string) | User(id: string) | Circle(id: string) | FeatGroup(name: string) | FeatName(name: string)
  datatype RelKind = Owns | OwnsFeat | HasFeat | Follows | PartOf
  datatype Rel = Rel(kind: RelKind, from: Node, to: Node)
  datatype Graph = Graph(nodes: set<Node>, rels: set<Rel>)

  /**
    One UNWIND row of a statement:
    `MERGE (n)`; `MERGE (n) WITH .. MATCH (parent) MERGE (parent)-[kind]->(n)`;
    `MATCH (from) MATCH (to) MERGE (from)-[kind]->(to)`.
   */
  datatype GraphOp =
    | MergeNode(node: Node)
    | MergeChild(parent: Node, childKind: RelKind, child: Node)
    | MergeRel(relKind: RelKind, src: Node, dst: Node)

  function Created(op: GraphOp): set<Node> {
    match op
    case MergeNode(n) => {n}
    case MergeChild(_, _, n) => {n}
    case MergeRel(_, _, _) => {}
  }

  /** The nodes the row's MATCH clauses must find. */
  function Needs(op: GraphOp): set<Node> {
    match op
    case MergeNode(_) => {}
    case MergeChild(p, _, _) => {p}
    case MergeRel(_, a, b) => {a, b}
  }

  function Rels(op: GraphOp): set<Rel> {
    match op
    case MergeNode(_) => {}
    case MergeChild(p, k, n) => {Rel(k, p, n)}
    case MergeRel(k, a, b) => {Rel(k, a, b)}
  }

  /** A row merges its node, then merges its relationship only if every MATCH finds its node. */
  function Step(g: Graph, op: GraphOp): (r: Graph)
    ensures r.nodes == g.nodes + Created(op)
    ensures r.rels == if Needs(op) <= r.nodes then g.rels + Rels(op) else g.rels
  {
    var ns := g.nodes + Created(op);
    Graph(ns, if Needs(op) <= ns then g.rels + Rels(op) else g.rels)
  }

  /** The rows, one after the other. */
  function Apply(g: Graph, ops: seq<GraphOp>): Graph
    decreases |ops|
  {
    if ops == [] then g else Apply(Step(g, ops[0]), ops[1..])
  }

  lemma {:induction false} ApplyConcat(g: Graph, a: seq<GraphOp>, b: seq<GraphOp>)
    ensures Apply(g, a + b) == Apply(Apply(g, a), b)
    decreases |a|
  {
    if a == [] {
      assert a + b == b;
    } else {
      assert (a + b)[1..] == a[1..] + b;
      ApplyConcat(Step(g, a[0]), a[1..], b);
    }
  }

  /** No relationship points at a node that is not in the graph. */
  predicate GraphValid(g: Graph) {
    forall r | r in g.rels :: r.from in g.nodes && r.to in g.nodes
  }

  /** MATCH never lets a relationship dangle. */
  lemma {:induction false} ApplyValid(g: Graph, ops: seq<GraphOp>)
    requires GraphValid(g)
    ensures GraphValid(Apply(g, ops))
    decreases |ops|
  {
    if ops != [] {
      var g' := Step(g, ops[0]);
      assert GraphValid(g') by {
        forall r | r in g'.rels ensures r.from in g'.nodes && r.to in g'.nodes {
          if r !in g.rels {
            match ops[0]
            case MergeNode(_) =>
            case MergeChild(p, k, n) =>
            case MergeRel(k, a, b) =>
          }
        }
      }
      ApplyValid(g', ops[1..]);
    }
  }

  /** The nodes some row merges. */
  function CreatedAll(ops: seq<GraphOp>): set<Node> {
    set op, n | op in ops && n in Created(op) :: n
  }

  /** The relationships of the rows whose MATCH clauses all succeed against `ns`. */
  function LinkedAll(ops: seq<GraphOp>, ns: set<Node>): set<Rel> {
    set op, r | op in ops && Needs(op) <= ns && r in Rels(op) :: r
  }

  /** No row needs a node that the same row or a later one creates. */
  predicate DependencyOrdered(ops: seq<GraphOp>) {
    forall i, j | 0 <= i <= j < |ops| :: Needs(ops[i]) !! Created(ops[j])
  }

  lemma CreatedAllCons(op: GraphOp, rest: seq<GraphOp>)
    ensures CreatedAll([op] + rest) == Created(op) + CreatedAll(rest)
  {
    var ops := [op] + rest;
    forall n | n in CreatedAll(ops) ensures n in Created(op) + CreatedAll(rest) {
      var o :| o in ops && n in Created(o);
      if o != op { assert o in rest; }
    }
    forall n | n in CreatedAll(rest) ensures n in CreatedAll(ops) {
      var o :| o in rest && n in Created(o);
      assert o in ops;
    }
    assert op in ops;
  }

  lemma LinkedAllCons(op: GraphOp, rest: seq<GraphOp>, ns: set<Node>)
    ensures LinkedAll([op] + rest, ns) == (if Needs(op) <= ns then Rels(op) else {}) + LinkedAll(rest, ns)
  {
    var ops := [op] + rest;
    forall r | r in LinkedAll(ops, ns) ensures r in (if Needs(op) <= ns then Rels(op) else {}) + LinkedAll(rest, ns) {
      var o :| o in ops && Needs(o) <= ns && r in Rels(o);
      if o != op { assert o in rest; }
    }
    forall r | r in LinkedAll(rest, ns) ensures r in LinkedAll(ops, ns) {
      var o :| o in rest && Needs(o) <= ns && r in Rels(o);
      assert o in ops;
    }
    assert op in ops;
  }

  /**
    The graph after dependency-ordered rows: every node they merge is added, and a
    relationship is present exactly when it was before or its row's MATCH nodes are in
    the final graph.
   */
  lemma {:induction false} ApplyClosedForm(g: Graph, ops: seq<GraphOp>)
    requires DependencyOrdered(ops)
    ensures Apply(g, ops).nodes == g.nodes + CreatedAll(ops)
    ensures Apply(g, ops).rels == g.rels + LinkedAll(ops, Apply(g, ops).nodes)
    decreases |ops|
  {
    if ops != [] {
      var op, rest := ops[0], ops[1..];
      assert ops == [op] + rest;
      var g' := Step(g, op);
      assert DependencyOrdered(rest) by {
        forall i, j | 0 <= i <= j < |rest| ensures Needs(rest[i]) !! Created(rest[j]) {
          assert rest[i] == ops[i + 1] && rest[j] == ops[j + 1];
        }
      }
      ApplyClosedForm(g', rest);
      var fin := Apply(g, ops);
      assert fin == Apply(g', rest);
      CreatedAllCons(op, rest);
      assert Needs(op) !! CreatedAll(rest) by {
        forall n | n in CreatedAll(rest) ensures n !in Needs(op) {
          var o :| o in rest && n in Created(o);
          var j :| 0 <= j < |rest| && rest[j] == o;
          assert rest[j] == ops[j + 1];
          assert Needs(ops[0]) !! Created(ops[j + 1]);
        }
      }
      assert Needs(op) <= g'.nodes <==> Needs(op) <= fin.nodes;
      LinkedAllCons(op, rest, fin.nodes);
    }
  }

  /** Replaying dependency-ordered rows changes nothing: every statement is a MERGE. */
  lemma ApplyIdempotent(g: Graph, ops: seq<GraphOp>)
    requires DependencyOrdered(ops)
    ensures Apply(Apply(g, ops), ops) == Apply(g, ops)
  {
    var once := Apply(g, ops);
    ApplyClosedForm(g, ops);
    ApplyClosedForm(once, ops);
    var twice := Apply(once, ops);
    assert twice.nodes == once.nodes;
    assert twice.rels == once.rels;
  }

  // ---------------------------------------------------------------- the statements of one ingest

  /** The rows of one statement: one per record, in record order. */
  function OpsOf<R>(recs: seq<R>, toOp: R -> GraphOp): (ops: seq<GraphOp>)
    ensures |ops| == |recs| && forall i | 0 <= i < |recs| :: ops[i] == toOp(recs[i])
  {
    seq(|recs|, i requires 0 <= i < |recs| => toOp(recs[i]))
  }

  lemma OpsOfConcat<R>(a: seq<R>, b: seq<R>, toOp: R -> GraphOp)
    ensures OpsOf(a + b, toOp) == OpsOf(a, toOp) + OpsOf(b, toOp)
  {
  }

  function UserOp(u: string): GraphOp { MergeNode(User(u)) }
  function CircleOp(c: CircleRecord): GraphOp { MergeChild(Ego(c.ego), Owns, Circle(c.id)) }
  function GroupOp(name: string): GraphOp { MergeNode(FeatGroup(name)) }
  function FeatureOp(f: FeatureRecord): GraphOp { MergeChild(FeatGroup(f.group), OwnsFeat, FeatName(f.feature)) }
  function UserFeatureOp(h: HasFeatureRecord): GraphOp { MergeRel(HasFeat, User(h.id), FeatName(h.feature)) }
  function EgoFeatureOp(h: HasFeatureRecord): GraphOp { MergeRel(HasFeat, Ego(h.id), FeatName(h.feature)) }
  function EgoFollowOp(f: FollowRecord): GraphOp { MergeRel(Follows, Ego(f.src), User(f.dst)) }
  function FollowOp(f: FollowRecord): GraphOp { MergeRel(Follows, User(f.src), User(f.dst)) }
  function MemberOp(m: MembershipRecord): GraphOp { MergeRel(PartOf, User(m.user), Circle(m.circle)) }

  /** The rows the ingest writes, statement after statement, in the order of the source. */
  function IngestOps(recs: EgoRecords): seq<GraphOp> {
    NodeOps(recs) + RelOps(recs)
  }

  /** The statements that merge nodes (and the relationship to a node merged earlier). */
  function NodeOps(recs: EgoRecords): seq<GraphOp> {
    [MergeNode(Ego(recs.ego))]
    + (OpsOf(recs.users, UserOp)
    + (OpsOf(recs.circs, CircleOp)
    + (OpsOf(recs.featGroups, GroupOp)
    + OpsOf(recs.featGroupMap, FeatureOp))))
  }

  /** The statements that only match existing nodes and merge relationships. */
  function RelOps(recs: EgoRecords): seq<GraphOp> {
    OpsOf(recs.featureMap, UserFeatureOp)
    + (OpsOf(recs.egoFeatureMap, EgoFeatureOp)
    + (OpsOf(recs.egoFollows, EgoFollowOp)
    + (OpsOf(recs.follows, FollowOp)
    + OpsOf(recs.memberships, MemberOp))))
  }

  /** Five statements in a row. */
  lemma ApplyChain(g: Graph, a: seq<GraphOp>, b: seq<GraphOp>, c: seq<GraphOp>, d: seq<GraphOp>, e: seq<GraphOp>)
    ensures Apply(g, a + (b + (c + (d + e)))) == Apply(Apply(Apply(Apply(Apply(g, a), b), c), d), e)
  {
    ApplyConcat(g, a, b + (c + (d + e)));
    ApplyConcat(Apply(g, a), b, c + (d + e));
    ApplyConcat(Apply(Apply(g, a), b), c, d + e);
    ApplyConcat(Apply(Apply(Apply(g, a), b), c), d, e);
  }

  /** Ego, users, circles, feature groups, feature names, then relationships. */
  function Stage(n: Node): nat {
    match n
    case Ego(_) => 0
    case User(_) => 1
    case Circle(_) => 2
    case FeatGroup(_) => 3
    case FeatName(_) => 4
  }

  function Rank(op: GraphOp): nat {
    match op
    case MergeNode(n) => Stage(n)
    case MergeChild(_, _, n) => Stage(n)
    case MergeRel(_, _, _) => 5
  }

  /** A row creates nodes of its own stage and needs only nodes of earlier stages. */
  predicate WellStaged(op: GraphOp) {
    (forall n | n in Needs(op) :: Stage(n) < Rank(op)) && (forall n | n in Created(op) :: Stage(n) == Rank(op))
  }

  predicate Staged(ops: seq<GraphOp>) {
    (forall i | 0 <= i < |ops| :: WellStaged(ops[i]))
    && (forall i, j | 0 <= i <= j < |ops| :: Rank(ops[i]) <= Rank(ops[j]))
  }

  lemma StagedOrdered(ops: seq<GraphOp>)
    requires Staged(ops)
    ensures DependencyOrdered(ops)
  {
    forall i, j | 0 <= i <= j < |ops| ensures Needs(ops[i]) !! Created(ops[j]) {
      assert WellStaged(ops[i]) && WellStaged(ops[j]);
      forall n | n in Needs(ops[i]) ensures n !in Created(ops[j]) {
        assert Stage(n) < Rank(ops[j]);
      }
    }
  }

  /** A segment of one rank placed before staged rows of no lower rank. */
  lemma StagedPrepend(seg: seq<GraphOp>, rest: seq<GraphOp>, r: nat)
    requires forall i | 0 <= i < |seg| :: WellStaged(seg[i]) && Rank(seg[i]) == r
    requires Staged(rest) && forall j | 0 <= j < |rest| :: Rank(rest[j]) >= r
    ensures Staged(seg + rest) && forall j | 0 <= j < |seg + rest| :: Rank((seg + rest)[j]) >= r
  {
    var all := seg + rest;
    forall i, j | 0 <= i <= j < |all| ensures Rank(all[i]) <= Rank(all[j]) {
      if j >= |seg| && i >= |seg| {
        assert all[i] == rest[i - |seg|] && all[j] == rest[j - |seg|];
      } else if j >= |seg| {
        assert all[j] == rest[j - |seg|];
      }
    }
  }

  lemma RelOpsStaged(recs: EgoRecords)
    ensures Staged(RelOps(recs)) && forall j | 0 <= j < |RelOps(recs)| :: Rank(RelOps(recs)[j]) >= 5
  {
    var m := OpsOf(recs.memberships, MemberOp);
    var f := OpsOf(recs.follows, FollowOp);
    var ef := OpsOf(recs.egoFollows, EgoFollowOp);
    var eh := OpsOf(recs.egoFeatureMap, EgoFeatureOp);
    var uh := OpsOf(recs.featureMap, UserFeatureOp);
    StagedPrepend(m, [], 5);
    assert m + [] == m;
    StagedPrepend(f, m, 5);
    StagedPrepend(ef, f + m, 5);
    StagedPrepend(eh, ef + (f + m), 5);
    StagedPrepend(uh, eh + (ef + (f + m)), 5);
  }

  /** The statement order of the ingest writes every node before the rows that match it. */
  lemma IngestOrdered(recs: EgoRecords)
    ensures DependencyOrdered(IngestOps(recs))
  {
    NodeOpsStaged(recs);
    RelOpsStaged(recs);
    StagedBeforeRels(NodeOps(recs), RelOps(recs));
    StagedOrdered(IngestOps(recs));
  }

  lemma NodeOpsStaged(recs: EgoRecords)
    ensures Staged(NodeOps(recs))
  {
    var fm := OpsOf(recs.featGroupMap, FeatureOp);
    var fg := OpsOf(recs.featGroups, GroupOp);
    var cs := OpsOf(recs.circs, CircleOp);
    var us := OpsOf(recs.users, UserOp);
    StagedPrepend(fm, [], 4);
    assert fm + [] == fm;
    StagedPrepend(fg, fm, 3);
    StagedPrepend(cs, fg + fm, 2);
    StagedPrepend(us, cs + (fg + fm), 1);
    StagedPrepend([MergeNode(Ego(recs.ego))], us + (cs + (fg + fm)), 0);
  }

  /** No rank exceeds that of a relationship row, so staged rows may precede them. */
  lemma StagedBeforeRels(a: seq<GraphOp>, b: seq<GraphOp>)
    requires Staged(a) && Staged(b) && forall j | 0 <= j < |b| :: Rank(b[j]) >= 5
    ensures Staged(a + b)
  {
    var all := a + b;
    forall i, j | 0 <= i <= j < |all| ensures Rank(all[i]) <= Rank(all[j]) {
      if i >= |a| {
        assert all[i] == b[i - |a|] && all[j] == b[j - |a|];
      } else if j >= |a| {
        assert all[j] == b[j - |a|];
      }
    }
  }

  /** Ingesting the same records twice leaves the graph as one ingest left it. */
  lemma ReingestUnchanged(g: Graph, recs: EgoRecords)
    ensures Apply(Apply(g, IngestOps(recs)), IngestOps(recs)) == Apply(g, IngestOps(recs))
  {
    IngestOrdered(recs);
    ApplyIdempotent(g, IngestOps(recs));
  }

  /** Dependency-ordered rows with the same members leave the same graph, whatever their order. */
  lemma ApplySameRows(g: Graph, a: seq<GraphOp>, b: seq<GraphOp>)
    requires DependencyOrdered(a) && DependencyOrdered(b)
    requires forall op :: op in a <==> op in b
    ensures Apply(g, a) == Apply(g, b)
  {
    ApplyClosedForm(g, a);
    ApplyClosedForm(g, b);
    assert CreatedAll(a) == CreatedAll(b);
    assert Apply(g, a).nodes == Apply(g, b).nodes;
    assert LinkedAll(a, Apply(g, a).nodes) == LinkedAll(b, Apply(g, a).nodes);
  }

  /** The iteration order of the set `feat_groups` does not show in the graph. */
  lemma IngestIgnoresGroupOrder(
    g: Graph, egoId: string, edges: seq<(string, string)>, feats: seq<(string, string)>,
    nodeFeatures: Dict<string, seq<string>>, egoFeatures: Dict<string, seq<string>>,
    circles: Dict<string, seq<string>>, order1: seq<string>, order2: seq<string>)
    requires EnumeratesSet(order1, GroupNames(feats)) && EnumeratesSet(order2, GroupNames(feats))
    requires egoId in Keys(egoFeatures)
    ensures Apply(g, IngestOps(BuildRecords(egoId, edges, feats, nodeFeatures, egoFeatures, circles, order1).value))
         == Apply(g, IngestOps(BuildRecords(egoId, edges, feats, nodeFeatures, egoFeatures, circles, order2).value))
  {
    var r1 := BuildRecords(egoId, edges, feats, nodeFeatures, egoFeatures, circles, order1).value;
    var r2 := BuildRecords(egoId, edges, feats, nodeFeatures, egoFeatures, circles, order2).value;
    assert r2 == r1.(featGroups := order2);
    var g1 := OpsOf(r1.featGroups, GroupOp);
    var g2 := OpsOf(r2.featGroups, GroupOp);
    forall op ensures op in g1 <==> op in g2 {
      if op in g1 {
        var i :| 0 <= i < |g1| && g1[i] == op;
        assert order1[i] in order1 && order1[i] in order2;
        var j :| 0 <= j < |order2| && order2[j] == order1[i];
        assert g2[j] == op;
      }
      if op in g2 {
        var j :| 0 <= j < |g2| && g2[j] == op;
        assert order2[j] in order2 && order2[j] in order1;
        var i :| 0 <= i < |order1| && order1[i] == order2[j];
        assert g1[i] == op;
      }
    }
    assert RelOps(r1) == RelOps(r2);
    IngestOrdered(r1);
    IngestOrdered(r2);
    ApplySameRows(g, IngestOps(r1), IngestOps(r2));
  }

  /** The nodes one ingest merges. */
  function IngestedNodes(recs: EgoRecords): set<Node> {
    {Ego(recs.ego)}
    + (set u | u in recs.users :: User(u))
    + (set c | c in recs.circs :: Circle(c.id))
    + (set n | n in recs.featGroups :: FeatGroup(n))
    + (set f | f in recs.featGroupMap :: FeatName(f.feature))
  }

  lemma CreatedAllConcat(a: seq<GraphOp>, b: seq<GraphOp>)
    ensures CreatedAll(a + b) == CreatedAll(a) + CreatedAll(b)
  {
    forall n | n in CreatedAll(a + b) ensures n in CreatedAll(a) + CreatedAll(b) {
      var o :| o in a + b && n in Created(o);
    }
    forall n | n in CreatedAll(a) + CreatedAll(b) ensures n in CreatedAll(a + b) {
      if n in CreatedAll(a) {
        var o :| o in a && n in Created(o);
        assert o in a + b;
      } else {
        var o :| o in b && n in Created(o);
        assert o in a + b;
      }
    }
  }

  /** Relationship rows merge no node. */
  lemma CreatedAllRels(ops: seq<GraphOp>)
    requires forall i | 0 <= i < |ops| :: ops[i].MergeRel?
    ensures CreatedAll(ops) == {}
  {
  }

  lemma CreatedAllMap<R>(recs: seq<R>, toOp: R -> GraphOp, node: R -> Node)
    requires forall x :: Created(toOp(x)) == {node(x)}
    ensures CreatedAll(OpsOf(recs, toOp)) == set x | x in recs :: node(x)
  {
    var ops := OpsOf(recs, toOp);
    forall n | n in CreatedAll(ops) ensures n in set x | x in recs :: node(x) {
      var o :| o in ops && n in Created(o);
      var i :| 0 <= i < |ops| && ops[i] == o;
      assert n == node(recs[i]);
    }
    forall n | n in (set x | x in recs :: node(x)) ensures n in CreatedAll(ops) {
      var x :| x in recs && n == node(x);
      var i :| 0 <= i < |recs| && recs[i] == x;
      assert ops[i] in ops && n in Created(ops[i]);
    }
  }

  /**
    The nodes after an ingest: those already there and the ego, every user, every
    circle, every feature group and every feature name of the records; nothing else.
   */
  lemma IngestNodes(g: Graph, recs: EgoRecords)
    ensures Apply(g, IngestOps(recs)).nodes == g.nodes + IngestedNodes(recs)
  {
    IngestOrdered(recs);
    ApplyClosedForm(g, IngestOps(recs));
    CreatedAllConcat(NodeOps(recs), RelOps(recs));
    NodeOpsCreate(recs);
    RelOpsCreateNothing(recs);
  }

  lemma NodeOpsCreate(recs: EgoRecords)
    ensures CreatedAll(NodeOps(recs)) == IngestedNodes(recs)
  {
    var fm := OpsOf(recs.featGroupMap, FeatureOp);
    var fg := OpsOf(recs.featGroups, GroupOp);
    var cs := OpsOf(recs.circs, CircleOp);
    var us := OpsOf(recs.users, UserOp);
    var ego := [MergeNode(Ego(recs.ego))];
    CreatedAllConcat(ego, us + (cs + (fg + fm)));
    CreatedAllConcat(us, cs + (fg + fm));
    CreatedAllConcat(cs, fg + fm);
    CreatedAllConcat(fg, fm);
    CreatedAllCons(MergeNode(Ego(recs.ego)), []);
    assert ego == [MergeNode(Ego(recs.ego))] + [];
    assert CreatedAll(us) == set u | u in recs.users :: User(u) by {
      CreatedAllMap(recs.users, UserOp, (u: string) => User(u));
    }
    assert CreatedAll(cs) == set c | c in recs.circs :: Circle(c.id) by {
      CreatedAllMap(recs.circs, CircleOp, (c: CircleRecord) => Circle(c.id));
    }
    assert CreatedAll(fg) == set n | n in recs.featGroups :: FeatGroup(n) by {
      CreatedAllMap(recs.featGroups, GroupOp, (n: string) => FeatGroup(n));
    }
    assert CreatedAll(fm) == set f | f in recs.featGroupMap :: FeatName(f.feature) by {
      CreatedAllMap(recs.featGroupMap, FeatureOp, (f: FeatureRecord) => FeatName(f.feature));
    }
  }

  lemma RelOpsCreateNothing(recs: EgoRecords)
    ensures CreatedAll(RelOps(recs)) == {}
  {
    var rels := RelOps(recs);
    forall i | 0 <= i < |rels| ensures rels[i].MergeRel? {
      assert rels[i] in rels;
    }
    CreatedAllRels(rels);
  }

  /** Only a follow record yields a FOLLOWS relationship between two users. */
  lemma FollowRowsOnly(recs: EgoRecords, op: GraphOp, a: string, b: string)
    requires op in IngestOps(recs) && Rel(Follows, User(a), User(b)) in Rels(op)
    ensures op == FollowOp(FollowRecord(a, b)) && FollowRecord(a, b) in recs.follows
  {
    var f := OpsOf(recs.follows, FollowOp);
    assert op !in NodeOps(recs);
    assert op in RelOps(recs);
    assert op in f by {
      assert op !in OpsOf(recs.featureMap, UserFeatureOp);
      assert op !in OpsOf(recs.egoFeatureMap, EgoFeatureOp);
      assert op !in OpsOf(recs.egoFollows, EgoFollowOp);
      assert op !in OpsOf(recs.memberships, MemberOp);
    }
    var i :| 0 <= i < |f| && f[i] == op;
    assert recs.follows[i] == FollowRecord(a, b);
  }

  /**
    MATCH drops a follow edge silently: after an ingest, two users are linked by FOLLOWS
    exactly when they were before, or an edge record names them and both are User nodes.
   */
  lemma IngestFollows(g: Graph, recs: EgoRecords, a: string, b: string)
    ensures var fin := Apply(g, IngestOps(recs));
      Rel(Follows, User(a), User(b)) in fin.rels
      <==> (Rel(Follows, User(a), User(b)) in g.rels
           || (FollowRecord(a, b) in recs.follows && User(a) in fin.nodes && User(b) in fin.nodes))
  {
    var ops := IngestOps(recs);
    var fin := Apply(g, ops);
    var r := Rel(Follows, User(a), User(b));
    IngestOrdered(recs);
    ApplyClosedForm(g, ops);
    if r in LinkedAll(ops, fin.nodes) {
      var op :| op in ops && Needs(op) <= fin.nodes && r in Rels(op);
      FollowRowsOnly(recs, op, a, b);
    }
    if FollowRecord(a, b) in recs.follows && User(a) in fin.nodes && User(b) in fin.nodes {
      var f := OpsOf(recs.follows, FollowOp);
      var i :| 0 <= i < |recs.follows| && recs.follows[i] == FollowRecord(a, b);
      assert f[i] in f;
      assert f[i] in RelOps(recs);
      assert f[i] in ops;
      assert r in Rels(f[i]) && Needs(f[i]) <= fin.nodes;
    }
  }

  // ---------------------------------------------------------------- the ingestor

  class Neo4JIngestor {
    /** The database behind the driver. */
    var graph: Graph

    constructor (g: Graph)
      ensures graph == g
    {
      graph := g;
    }

    /** `for chunk in split_to_chunks(records): session.run(...)`: one statement per chunk. */
    method RunChunked<R>(records: seq<R>, toOp: R -> GraphOp)
      modifies this
      ensures graph == Apply(old(graph), OpsOf(records, toOp))
    {
      var chunks := ChunkList(records, DefaultChunkSize);
      var k := 0;
      while k < |chunks|
        invariant 0 <= k <= |chunks|
        invariant graph == Apply(old(graph), OpsOf(Flatten(chunks[..k]), toOp))
      {
        var done := Flatten(chunks[..k]);
        ApplyConcat(old(graph), OpsOf(done, toOp), OpsOf(chunks[k], toOp));
        assert chunks[..k + 1] == chunks[..k] + [chunks[k]];
        FlattenConcat(chunks[..k], [chunks[k]]);
        assert Flatten([chunks[k]]) == chunks[k] by {
          assert [chunks[k]][1..] == [];
        }
        assert Flatten(chunks[..k + 1]) == done + chunks[k];
        OpsOfConcat(done, chunks[k], toOp);
        graph := Apply(graph, OpsOf(chunks[k], toOp));
        k := k + 1;
      }
      assert chunks[..k] == chunks;
      ChunksMeaning(records, DefaultChunkSize);
    }

    /** The ego, users, circles, feature groups and feature names, in that order. */
    method WriteNodes(recs: EgoRecords)
      modifies this
      ensures graph == Apply(old(graph), NodeOps(recs))
    {
      graph := Apply(graph, [MergeNode(Ego(recs.ego))]);
      RunChunked(recs.users, UserOp);
      RunChunked(recs.circs, CircleOp);
      RunChunked(recs.featGroups, GroupOp);
      RunChunked(recs.featGroupMap, FeatureOp);
      ApplyChain(old(graph), [MergeNode(Ego(recs.ego))], OpsOf(recs.users, UserOp),
        OpsOf(recs.circs, CircleOp), OpsOf(recs.featGroups, GroupOp), OpsOf(recs.featGroupMap, FeatureOp));
    }

    /** Feature assignments, the ego's features, ego follows, follows and memberships. */
    method WriteRels(recs: EgoRecords)
      modifies this
      ensures graph == Apply(old(graph), RelOps(recs))
    {
      RunChunked(recs.featureMap, UserFeatureOp);
      graph := Apply(graph, OpsOf(recs.egoFeatureMap, EgoFeatureOp));
      RunChunked(recs.egoFollows, EgoFollowOp);
      RunChunked(recs.follows, FollowOp);
      RunChunked(recs.memberships, MemberOp);
      ApplyChain(old(graph), OpsOf(recs.featureMap, UserFeatureOp), OpsOf(recs.egoFeatureMap, EgoFeatureOp),
        OpsOf(recs.egoFollows, EgoFollowOp), OpsOf(recs.follows, FollowOp), OpsOf(recs.memberships, MemberOp));
    }

    /**
      `ingestEgoNetwork`: a missing `ego_features[ego_id]` fails before any write;
      otherwise the statements run in their fixed order.
     */
    method IngestEgoNetwork(
      egoId: string, edges: seq<(string, string)>, feats: seq<(string, string)>,
      nodeFeatures: Dict<string, seq<string>>, egoFeatures: Dict<string, seq<string>>,
      circles: Dict<string, seq<string>>, groupOrder: seq<string>) returns (r: Result<(), MissingKey>)
      requires EnumeratesSet(groupOrder, GroupNames(feats))
      modifies this
      ensures r.Err? <==> egoId !in Keys(egoFeatures)
      ensures r.Err? ==> r.error == MissingKey(egoId) && graph == old(graph)
      ensures r.Ok? ==> graph == Apply(old(graph), IngestOps(
        BuildRecords(egoId, edges, feats, nodeFeatures, egoFeatures, circles, groupOrder).value))
    {
      var built := BuildRecords(egoId, edges, feats, nodeFeatures, egoFeatures, circles, groupOrder);
      if built.Err? {
        return Err(built.error);
      }
      var recs := built.value;
      WriteNodes(recs);
      WriteRels(recs);
      ApplyConcat(old(graph), NodeOps(recs), RelOps(recs));
      r := Ok(());
    }
  }
}
