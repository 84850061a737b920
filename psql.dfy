/**
  `PSQLIngestor.ingestEgoNetwork`: the rows each step inserts, the maps read back from
  `feature_group` and `feature_name`, the resolution of feature names to ids, and the
  whole ingest as a sequence of committed steps.
 */
module PsqlIngest {
  import opened Wrappers
  import opened PyDict
  import opened Chunking
  import opened RelationalIngest

  // ---------------------------------------------------------------- the rows of each step

  /** The ego's `node` and `ego` rows, committed together. */
  function EgoInserts(egoId: string): seq<Insert> {
    [InsertNode(egoId, EgoType), InsertEgo(egoId)]
  }

  /** `users`: one `node` row of type `'user'` per key of `node_features`. */
  function UserInserts(nodeFeatures: Dict<string, seq<string>>): seq<Insert> {
    seq(|nodeFeatures|, i requires 0 <= i < |nodeFeatures| => InsertNode(nodeFeatures[i].0, UserType))
  }

  /** The same users again, as `user_node` rows owned by the ego. */
  function UserNodeInserts(nodeFeatures: Dict<string, seq<string>>, egoId: string): seq<Insert> {
    seq(|nodeFeatures|, i requires 0 <= i < |nodeFeatures| => InsertUserNode(nodeFeatures[i].0, egoId))
  }

  /** `circs`: one `circle` row per key of `circles`; the member lists are not used. */
  function CircleInserts(circles: Dict<string, seq<string>>, egoId: string): seq<Insert> {
    seq(|circles|, i requires 0 <= i < |circles| => InsertCircle(circles[i].0, egoId))
  }

  /** One `feature_group` row per distinct group name, in the set's iteration order. */
  function GroupInserts(groupNames: seq<string>): seq<Insert> {
    seq(|groupNames|, i requires 0 <= i < |groupNames| => InsertGroup(groupNames[i]))
  }

  /** One `edge` row per edge, tagged with the ego. */
  function EdgeInserts(edges: seq<(string, string)>, egoId: string): seq<Insert> {
    seq(|edges|, i requires 0 <= i < |edges| => InsertEdge(edges[i].0, edges[i].1, egoId))
  }

  // ---------------------------------------------------------------- group_map

  /** `dict(select group_name, group_id from feature_group)`: the last row of a name wins. */
  function GroupMap(rows: seq<GroupRow>): Dict<string, int> {
    FromPairs(seq(|rows|, i requires 0 <= i < |rows| => (rows[i].groupName, rows[i].groupId)))
  }

  /** Exactly the group names in the table are keys. */
  lemma GroupMapKeys(rows: seq<GroupRow>, name: string)
    ensures name in Keys(GroupMap(rows)) <==> name in GroupNamesIn(rows)
  {
    var ps := seq(|rows|, i requires 0 <= i < |rows| => (rows[i].groupName, rows[i].groupId));
    if name in GroupNamesIn(rows) {
      var r :| r in rows && r.groupName == name;
      var i :| 0 <= i < |rows| && rows[i] == r;
      assert Keys(ps)[i] == name;
    }
    if name in Keys(ps) {
      var i :| 0 <= i < |ps| && Keys(ps)[i] == name;
      assert rows[i] in rows;
    }
  }

  /** A name stored by several rows maps to the id of the last of them. */
  lemma GroupMapLatest(rows: seq<GroupRow>, i: nat)
    requires i < |rows|
    requires forall j | i < j < |rows| :: rows[j].groupName != rows[i].groupName
    ensures Get(GroupMap(rows), rows[i].groupName) == Some(rows[i].groupId)
  {
    var ps := seq(|rows|, i requires 0 <= i < |rows| => (rows[i].groupName, rows[i].groupId));
    FromPairsLastWins(ps, i);
  }

  /** Every value is the id of a stored group. */
  lemma GroupMapIds(rows: seq<GroupRow>, name: string)
    requires name in Keys(GroupMap(rows))
    ensures Get(GroupMap(rows), name).value in GroupIds(rows)
  {
    var ps := seq(|rows|, i requires 0 <= i < |rows| => (rows[i].groupName, rows[i].groupId));
    FromPairsValueFrom(ps, name);
    var i :| 0 <= i < |ps| && ps[i].0 == name && Get(GroupMap(rows), name) == Some(ps[i].1);
    assert rows[i] in rows;
  }

  /**
    `[(group_map[group], name) for group, name in features]`, built before any row is
    sent: the first group missing from the map raises `KeyError`.
   */
  function FeatureRows(features: seq<(string, string)>, groupMap: Dict<string, int>): (r: Result<seq<Insert>, IngestError>)
    ensures r.Ok? <==> forall i | 0 <= i < |features| :: features[i].0 in Keys(groupMap)
    ensures r.Ok? ==> |r.value| == |features| && forall i | 0 <= i < |features| ::
      r.value[i] == InsertFeature(Get(groupMap, features[i].0).value, features[i].1)
    ensures r.Err? ==> exists i | 0 <= i < |features| ::
      r.error == MissingGroup(features[i].0) && features[i].0 !in Keys(groupMap)
      && forall j | 0 <= j < i :: features[j].0 in Keys(groupMap)
    decreases |features|
  {
    if features == [] then Ok([])
    else
      var n := |features| - 1;
      var prior := features[..n];
      assert forall i | 0 <= i < n :: prior[i] == features[i];
      match FeatureRows(prior, groupMap)
      case Err(e) => Err(e)
      case Ok(rows) =>
        match Get(groupMap, features[n].0)
        case None => Err(MissingGroup(features[n].0))
        case Some(gid) => Ok(rows + [InsertFeature(gid, features[n].1)])
  }

  // ---------------------------------------------------------------- feature_id_map

  /** `{(gid, name): fid for fid, gid, name in select .. from feature_name}`. */
  function FeatureIdMap(rows: seq<FeatureRow>): Dict<(int, string), int> {
    FromPairs(seq(|rows|, i requires 0 <= i < |rows| => (FeatureKey(rows[i]), rows[i].featureId)))
  }

  /** Under `unique (group_id, name)` the map is the table itself, row for row. */
  lemma FeatureIdMapRows(rows: seq<FeatureRow>)
    requires forall i, j | 0 <= i < j < |rows| :: FeatureKey(rows[i]) != FeatureKey(rows[j])
    ensures FeatureIdMap(rows) == seq(|rows|, i requires 0 <= i < |rows| => (FeatureKey(rows[i]), rows[i].featureId))
  {
    FromPairsDistinct(seq(|rows|, i requires 0 <= i < |rows| => (FeatureKey(rows[i]), rows[i].featureId)));
  }

  /** Every value is the id of a stored feature. */
  lemma FeatureIdMapIds(rows: seq<FeatureRow>, k: (int, string))
    requires k in Keys(FeatureIdMap(rows))
    ensures Get(FeatureIdMap(rows), k).value in FeatureIds(rows)
  {
    var ps := seq(|rows|, i requires 0 <= i < |rows| => (FeatureKey(rows[i]), rows[i].featureId));
    FromPairsValueFrom(ps, k);
    var i :| 0 <= i < |ps| && ps[i].0 == k && Get(FeatureIdMap(rows), k) == Some(ps[i].1);
    assert rows[i] in rows;
  }

  /**
    `next(gid for (gid, fname) in feature_id_map if fname == name)`: the group of the first
    key carrying `name`, whatever its group; `None` where Python raises `StopIteration`.
   */
  function FirstGroupWithName(keys: seq<(int, string)>, name: string): Option<int> {
    if keys == [] then None
    else if keys[0].1 == name then Some(keys[0].0)
    else FirstGroupWithName(keys[1..], name)
  }

  /** No group is found exactly when no key has the name; otherwise the first key with it gives the group. */
  lemma {:induction false} FirstGroupWithNameMeaning(keys: seq<(int, string)>, name: string)
    ensures var r := FirstGroupWithName(keys, name);
      && (r.None? <==> forall i | 0 <= i < |keys| :: keys[i].1 != name)
      && (r.Some? ==> exists i | 0 <= i < |keys| ::
            keys[i] == (r.value, name) && forall j | 0 <= j < i :: keys[j].1 != name)
  {
    if keys != [] && keys[0].1 != name {
      FirstGroupWithNameMeaning(keys[1..], name);
      assert forall i | 1 <= i < |keys| :: keys[i] == keys[1..][i - 1];
      if FirstGroupWithName(keys, name).Some? {
        var r := FirstGroupWithName(keys, name);
        var i :| 0 <= i < |keys[1..]| && keys[1..][i] == (r.value, name) && forall j | 0 <= j < i :: keys[1..][j].1 != name;
        assert keys[i + 1] == (r.value, name);
      }
    }
  }

  /** `feature_id_map[(group_id, name)]` for the group just found: the id of the feature. */
  function ResolveFeature(featureIdMap: Dict<(int, string), int>, name: string): Option<int> {
    match FirstGroupWithName(Keys(featureIdMap), name)
    case None => None
    case Some(g) => Get(featureIdMap, (g, name))
  }

  /**
    Resolution against the stored rows picks the first row named `name` in table order,
    even when that row belongs to a different group than the feature being tagged.
   */
  lemma ResolveFeatureRow(rows: seq<FeatureRow>, name: string)
    requires forall i, j | 0 <= i < j < |rows| :: FeatureKey(rows[i]) != FeatureKey(rows[j])
    ensures ResolveFeature(FeatureIdMap(rows), name).None? <==> forall i | 0 <= i < |rows| :: rows[i].name != name
    ensures ResolveFeature(FeatureIdMap(rows), name).Some? ==> exists i | 0 <= i < |rows| ::
      rows[i].name == name && ResolveFeature(FeatureIdMap(rows), name).value == rows[i].featureId
      && forall j | 0 <= j < i :: rows[j].name != name
  {
    FeatureIdMapRows(rows);
    var fmap := FeatureIdMap(rows);
    assert |fmap| == |rows| && forall i | 0 <= i < |rows| :: fmap[i] == (FeatureKey(rows[i]), rows[i].featureId);
    var first := FirstGroupWithName(Keys(fmap), name);
    FirstGroupWithNameMeaning(Keys(fmap), name);
    if first.Some? {
      var i :| 0 <= i < |fmap| && Keys(fmap)[i] == (first.value, name) && forall j | 0 <= j < i :: Keys(fmap)[j].1 != name;
      ResolveAtRow(fmap, rows, i, name);
    }
  }

  lemma ResolveAtRow(fmap: Dict<(int, string), int>, rows: seq<FeatureRow>, i: nat, name: string)
    requires PyDict.Valid(fmap) && |fmap| == |rows| && i < |rows|
    requires forall k | 0 <= k < |rows| :: fmap[k] == (FeatureKey(rows[k]), rows[k].featureId)
    requires FirstGroupWithName(Keys(fmap), name).Some?
    requires Keys(fmap)[i] == (FirstGroupWithName(Keys(fmap), name).value, name)
    ensures ResolveFeature(fmap, name) == Some(rows[i].featureId)
  {
    GetAt(fmap, i);
  }

  /** The resolved id is that of a stored feature. */
  lemma ResolveFeatureIds(rows: seq<FeatureRow>, name: string)
    requires ResolveFeature(FeatureIdMap(rows), name).Some?
    ensures ResolveFeature(FeatureIdMap(rows), name).value in FeatureIds(rows)
  {
    var g := FirstGroupWithName(Keys(FeatureIdMap(rows)), name).value;
    FeatureIdMapIds(rows, (g, name));
  }

  // ---------------------------------------------------------------- node_feature_rows

  /**
    The `node_feature` rows for `(node, feature name)` pairs, in order; the first name
    that resolves to nothing ends the ingest.
   */
  function ResolveAll(pairs: seq<(string, string)>, featureIdMap: Dict<(int, string), int>): (r: Result<seq<Insert>, IngestError>)
    ensures r.Ok? ==> |r.value| == |pairs|
    decreases |pairs|
  {
    if pairs == [] then Ok([])
    else
      var n := |pairs| - 1;
      match ResolveAll(pairs[..n], featureIdMap)
      case Err(e) => Err(e)
      case Ok(rows) =>
        match ResolveFeature(featureIdMap, pairs[n].1)
        case None => Err(NoFeatureNamed(pairs[n].1))
        case Some(fid) => Ok(rows + [InsertNodeFeature(pairs[n].0, fid)])
  }

  /**
    The rows come back exactly when every name resolves, one per pair in order; otherwise
    the error names the first pair whose name resolves to nothing.
   */
  lemma {:induction false} ResolveAllMeaning(pairs: seq<(string, string)>, featureIdMap: Dict<(int, string), int>)
    ensures ResolveAll(pairs, featureIdMap).Ok? <==> forall i | 0 <= i < |pairs| :: ResolveFeature(featureIdMap, pairs[i].1).Some?
    ensures ResolveAll(pairs, featureIdMap).Ok? ==> forall i | 0 <= i < |pairs| ::
      ResolveAll(pairs, featureIdMap).value[i] == InsertNodeFeature(pairs[i].0, ResolveFeature(featureIdMap, pairs[i].1).value)
    ensures ResolveAll(pairs, featureIdMap).Err? ==> exists i | 0 <= i < |pairs| ::
      ResolveAll(pairs, featureIdMap).error == NoFeatureNamed(pairs[i].1) && ResolveFeature(featureIdMap, pairs[i].1).None?
      && forall j | 0 <= j < i :: ResolveFeature(featureIdMap, pairs[j].1).Some?
  {
    ResolveAllOk(pairs, featureIdMap);
    ResolveAllFails(pairs, featureIdMap);
  }

  lemma ResolveAllOk(pairs: seq<(string, string)>, featureIdMap: Dict<(int, string), int>)
    ensures ResolveAll(pairs, featureIdMap).Ok? <==> forall i | 0 <= i < |pairs| :: ResolveFeature(featureIdMap, pairs[i].1).Some?
    ensures ResolveAll(pairs, featureIdMap).Ok? ==> forall i | 0 <= i < |pairs| ::
      ResolveAll(pairs, featureIdMap).value[i] == InsertNodeFeature(pairs[i].0, ResolveFeature(featureIdMap, pairs[i].1).value)
  {
    ResolveAllIff(pairs, featureIdMap);
    if ResolveAll(pairs, featureIdMap).Ok? {
      ResolveAllRows(pairs, featureIdMap);
    }
  }

  lemma {:induction false} ResolveAllIff(pairs: seq<(string, string)>, featureIdMap: Dict<(int, string), int>)
    ensures ResolveAll(pairs, featureIdMap).Ok? <==> forall i | 0 <= i < |pairs| :: ResolveFeature(featureIdMap, pairs[i].1).Some?
    decreases |pairs|
  {
    if pairs != [] {
      var n := |pairs| - 1;
      var prior := pairs[..n];
      ResolveAllIff(prior, featureIdMap);
      if ResolveAll(prior, featureIdMap).Err? {
        var i :| 0 <= i < n && ResolveFeature(featureIdMap, prior[i].1).None?;
        assert prior[i] == pairs[i];
      } else {
        forall i | 0 <= i < n ensures ResolveFeature(featureIdMap, pairs[i].1).Some? {
          assert prior[i] == pairs[i];
        }
      }
    }
  }

  lemma {:induction false} ResolveAllRows(pairs: seq<(string, string)>, featureIdMap: Dict<(int, string), int>)
    requires ResolveAll(pairs, featureIdMap).Ok?
    ensures forall i | 0 <= i < |pairs| ::
      (&& ResolveFeature(featureIdMap, pairs[i].1).Some?
       && ResolveAll(pairs, featureIdMap).value[i] == InsertNodeFeature(pairs[i].0, ResolveFeature(featureIdMap, pairs[i].1).value))
    decreases |pairs|
  {
    if pairs != [] {
      var n := |pairs| - 1;
      var prior := pairs[..n];
      ResolveAllRows(prior, featureIdMap);
      var rows := ResolveAll(prior, featureIdMap).value;
      var last := InsertNodeFeature(pairs[n].0, ResolveFeature(featureIdMap, pairs[n].1).value);
      assert ResolveAll(pairs, featureIdMap).value == rows + [last];
      forall i | 0 <= i < |pairs|
        ensures ResolveFeature(featureIdMap, pairs[i].1).Some? && ResolveAll(pairs, featureIdMap).value[i]
             == InsertNodeFeature(pairs[i].0, ResolveFeature(featureIdMap, pairs[i].1).value)
      {
        if i < n { assert prior[i] == pairs[i]; }
      }
    }
  }

  lemma {:induction false} ResolveAllFails(pairs: seq<(string, string)>, featureIdMap: Dict<(int, string), int>)
    ensures ResolveAll(pairs, featureIdMap).Err? ==> exists i | 0 <= i < |pairs| ::
      ResolveAll(pairs, featureIdMap).error == NoFeatureNamed(pairs[i].1) && ResolveFeature(featureIdMap, pairs[i].1).None?
      && forall j | 0 <= j < i :: ResolveFeature(featureIdMap, pairs[j].1).Some?
    decreases |pairs|
  {
    if pairs != [] {
      var n := |pairs| - 1;
      var prior := pairs[..n];
      ResolveAllFails(prior, featureIdMap);
      ResolveAllOk(prior, featureIdMap);
      assert forall i | 0 <= i < n :: prior[i] == pairs[i];
      if ResolveAll(prior, featureIdMap).Err? {
        var i :| 0 <= i < |prior| && ResolveAll(prior, featureIdMap).error == NoFeatureNamed(prior[i].1)
          && ResolveFeature(featureIdMap, prior[i].1).None?
          && forall j | 0 <= j < i :: ResolveFeature(featureIdMap, prior[j].1).Some?;
        assert pairs[i] == prior[i];
      }
    }
  }

  /** Once a name fails to resolve, later pairs change nothing. */
  lemma {:induction false} ResolveAllErr(a: seq<(string, string)>, b: seq<(string, string)>, featureIdMap: Dict<(int, string), int>)
    requires ResolveAll(a, featureIdMap).Err?
    ensures ResolveAll(a + b, featureIdMap) == ResolveAll(a, featureIdMap)
    decreases |b|
  {
    if b == [] {
      assert a + b == a;
    } else {
      var n := |b| - 1;
      ResolveAllErr(a, b[..n], featureIdMap);
      var ab := a + b;
      ConcatButLast(a, b);
      assert ResolveAll(ab, featureIdMap) == ResolveAll(a + b[..n], featureIdMap);
    }
  }

  /** The rows of `node_features` and then of `ego_features`, every key of each. */
  function NodeFeatureRows(nodeFeatures: Dict<string, seq<string>>, egoFeatures: Dict<string, seq<string>>,
                           featureIdMap: Dict<(int, string), int>): Result<seq<Insert>, IngestError>
  {
    ResolveAll(Pairs(nodeFeatures) + Pairs(egoFeatures), featureIdMap)
  }

  // ---------------------------------------------------------------- the ingest

  /** A step that runs only if every step before it succeeded. */
  function Continue(o: Outcome, stmts: seq<Insert>): Outcome {
    if o.result.Err? then o else Chunked(o.db, stmts)
  }

  /** The ego's two rows, the users, their `user_node` rows, the circles and the groups. */
  function SetupSpec(db: Tables, egoId: string, nodeFeatures: Dict<string, seq<string>>,
                     circles: Dict<string, seq<string>>, groupOrder: seq<string>): Outcome
  {
    var ego := RunChunks(db, [EgoInserts(egoId)]);
    var users := Continue(ego, UserInserts(nodeFeatures));
    var owned := Continue(users, UserNodeInserts(nodeFeatures, egoId));
    var circs := Continue(owned, CircleInserts(circles, egoId));
    Continue(circs, GroupInserts(groupOrder))
  }

  /** `group_map`, read back after the groups are committed, and the `feature_name` rows. */
  function FeatureSpec(o: Outcome, features: seq<(string, string)>): Outcome {
    if o.result.Err? then o
    else
      match FeatureRows(features, GroupMap(o.db.featureGroup))
      case Err(e) => Outcome(o.db, Err(e))
      case Ok(rows) => Chunked(o.db, rows)
  }

  /** `feature_id_map`, read back after the features are committed, and the `node_feature` rows. */
  function TagSpec(o: Outcome, nodeFeatures: Dict<string, seq<string>>, egoFeatures: Dict<string, seq<string>>): Outcome {
    if o.result.Err? then o
    else
      match NodeFeatureRows(nodeFeatures, egoFeatures, FeatureIdMap(o.db.featureName))
      case Err(e) => Outcome(o.db, Err(e))
      case Ok(rows) => Chunked(o.db, rows)
  }

  /**
    `ingestEgoNetwork`: each step commits before the next starts, so an exception leaves
    every earlier step in place. `groupOrder` is the iteration order of the set of group
    names.
   */
  function IngestSpec(db: Tables, egoId: string, edges: seq<(string, string)>, features: seq<(string, string)>,
                      nodeFeatures: Dict<string, seq<string>>, egoFeatures: Dict<string, seq<string>>,
                      circles: Dict<string, seq<string>>, groupOrder: seq<string>): Outcome
  {
    var setup := SetupSpec(db, egoId, nodeFeatures, circles, groupOrder);
    var tagged := TagSpec(FeatureSpec(setup, features), nodeFeatures, egoFeatures);
    Continue(tagged, EdgeInserts(edges, egoId))
  }

  // ---------------------------------------------------------------- steps that cannot fail

  /** Every row of the list is present. */
  predicate AllInserted(db: Tables, stmts: seq<Insert>) {
    forall i | 0 <= i < |stmts| :: Inserted(db, stmts[i])
  }

  lemma AllInsertedGrows(db: Tables, d: Tables, stmts: seq<Insert>)
    requires Grows(db, d) && AllInserted(db, stmts)
    ensures AllInserted(d, stmts)
  {
    forall i | 0 <= i < |stmts| ensures Inserted(d, stmts[i]) {
      InsertedGrows(db, d, stmts[i]);
    }
  }

  /** A step whose every row is acceptable commits all of them, as one transaction would. */
  lemma StepOk(db: Tables, stmts: seq<Insert>)
    requires Consistent(db) && forall i | 0 <= i < |stmts| :: Exec(db, stmts[i]).Ok?
    ensures Chunked(db, stmts).result.Ok? && ExecMany(db, stmts).Ok?
    ensures Chunked(db, stmts).db == ExecMany(db, stmts).value
    ensures Consistent(Chunked(db, stmts).db) && Grows(db, Chunked(db, stmts).db)
    ensures AllInserted(Chunked(db, stmts).db, stmts)
  {
    ExecManyAllOk(db, stmts);
    ChunkedAsOne(db, stmts);
    ExecManyConsistent(db, stmts);
  }

  /** What the first five steps leave behind. */
  predicate SetUp(db: Tables, d: Tables, egoId: string, nodeFeatures: Dict<string, seq<string>>,
                  circles: Dict<string, seq<string>>, groupOrder: seq<string>)
  {
    Consistent(d) && Grows(db, d)
    && AllInserted(d, EgoInserts(egoId))
    && AllInserted(d, UserInserts(nodeFeatures))
    && AllInserted(d, UserNodeInserts(nodeFeatures, egoId))
    && AllInserted(d, CircleInserts(circles, egoId))
    && AllInserted(d, GroupInserts(groupOrder))
  }

  lemma EgoStep(db: Tables, egoId: string)
    requires Consistent(db)
    ensures RunChunks(db, [EgoInserts(egoId)]).result.Ok?
    ensures Consistent(RunChunks(db, [EgoInserts(egoId)]).db) && Grows(db, RunChunks(db, [EgoInserts(egoId)]).db)
    ensures AllInserted(RunChunks(db, [EgoInserts(egoId)]).db, EgoInserts(egoId))
  {
    var stmts := EgoInserts(egoId);
    var d1 := Exec(db, stmts[0]).value;
    var d2 := Exec(d1, stmts[1]).value;
    assert [stmts[1]][1..] == [];
    assert ExecMany(d1, [stmts[1]]) == Ok(d2);
    assert stmts[1..] == [stmts[1]];
    assert ExecMany(db, stmts) == Ok(d2);
    ExecManyConsistent(db, stmts);
    assert [stmts][1..] == [];
  }

  /** Users and their `user_node` rows. */
  lemma UserSteps(d1: Tables, egoId: string, nodeFeatures: Dict<string, seq<string>>)
    requires Consistent(d1) && AllInserted(d1, EgoInserts(egoId))
    ensures Chunked(d1, UserInserts(nodeFeatures)).result.Ok?
    ensures var d2 := Chunked(d1, UserInserts(nodeFeatures)).db;
      Chunked(d2, UserNodeInserts(nodeFeatures, egoId)).result.Ok?
      && var d3 := Chunked(d2, UserNodeInserts(nodeFeatures, egoId)).db;
      Consistent(d3) && Grows(d1, d3) && AllInserted(d3, EgoInserts(egoId))
      && AllInserted(d3, UserInserts(nodeFeatures)) && AllInserted(d3, UserNodeInserts(nodeFeatures, egoId))
  {
    var users := UserInserts(nodeFeatures);
    StepOk(d1, users);
    var d2 := Chunked(d1, users).db;
    AllInsertedGrows(d1, d2, EgoInserts(egoId));
    var owned := UserNodeInserts(nodeFeatures, egoId);
    forall i | 0 <= i < |owned| ensures Exec(d2, owned[i]).Ok? {
      assert Inserted(d2, users[i]);
      assert Inserted(d2, EgoInserts(egoId)[1]);
    }
    StepOk(d2, owned);
    var d3 := Chunked(d2, owned).db;
    AllInsertedGrows(d2, d3, EgoInserts(egoId));
    AllInsertedGrows(d2, d3, users);
    GrowsTrans(d1, d2, d3);
  }

  /** Circles and groups. */
  lemma CircleGroupSteps(d3: Tables, egoId: string, circles: Dict<string, seq<string>>, groupOrder: seq<string>)
    requires Consistent(d3) && AllInserted(d3, EgoInserts(egoId))
    ensures Chunked(d3, CircleInserts(circles, egoId)).result.Ok?
    ensures var d4 := Chunked(d3, CircleInserts(circles, egoId)).db;
      Chunked(d4, GroupInserts(groupOrder)).result.Ok?
      && var d5 := Chunked(d4, GroupInserts(groupOrder)).db;
      Consistent(d5) && Grows(d3, d5)
      && AllInserted(d5, CircleInserts(circles, egoId)) && AllInserted(d5, GroupInserts(groupOrder))
  {
    var circs := CircleInserts(circles, egoId);
    forall i | 0 <= i < |circs| ensures Exec(d3, circs[i]).Ok? {
      assert Inserted(d3, EgoInserts(egoId)[1]);
    }
    StepOk(d3, circs);
    var d4 := Chunked(d3, circs).db;
    GroupStep(d4, groupOrder);
    var d5 := Chunked(d4, GroupInserts(groupOrder)).db;
    AllInsertedGrows(d4, d5, circs);
    GrowsTrans(d3, d4, d5);
  }

  lemma GroupStep(d4: Tables, groupOrder: seq<string>)
    requires Consistent(d4)
    ensures Chunked(d4, GroupInserts(groupOrder)).result.Ok?
    ensures Consistent(Chunked(d4, GroupInserts(groupOrder)).db) && Grows(d4, Chunked(d4, GroupInserts(groupOrder)).db)
    ensures AllInserted(Chunked(d4, GroupInserts(groupOrder)).db, GroupInserts(groupOrder))
  {
    StepOk(d4, GroupInserts(groupOrder));
  }

  /** The first five steps never fail on a valid database. */
  lemma SetupSucceeds(db: Tables, egoId: string, nodeFeatures: Dict<string, seq<string>>,
                      circles: Dict<string, seq<string>>, groupOrder: seq<string>)
    requires Consistent(db)
    ensures SetupSpec(db, egoId, nodeFeatures, circles, groupOrder).result.Ok?
    ensures SetUp(db, SetupSpec(db, egoId, nodeFeatures, circles, groupOrder).db, egoId, nodeFeatures, circles, groupOrder)
  {
    EgoStep(db, egoId);
    var d1 := RunChunks(db, [EgoInserts(egoId)]).db;
    UserSteps(d1, egoId, nodeFeatures);
    var d2 := Chunked(d1, UserInserts(nodeFeatures)).db;
    var d3 := Chunked(d2, UserNodeInserts(nodeFeatures, egoId)).db;
    CircleGroupSteps(d3, egoId, circles, groupOrder);
    var d4 := Chunked(d3, CircleInserts(circles, egoId)).db;
    var d5 := Chunked(d4, GroupInserts(groupOrder)).db;
    assert SetupSpec(db, egoId, nodeFeatures, circles, groupOrder) == Chunked(d4, GroupInserts(groupOrder));
    GrowsTrans(db, d1, d3);
    GrowsTrans(db, d3, d5);
    AllInsertedGrows(d3, d5, EgoInserts(egoId));
    AllInsertedGrows(d3, d5, UserInserts(nodeFeatures));
    AllInsertedGrows(d3, d5, UserNodeInserts(nodeFeatures, egoId));
  }

  /**
    Once the first five steps are in, running the ego, user, `user_node` and circle steps
    again commits and adds no row. The group step is no replay: see `GroupReplayAdds`.
   */
  lemma SetupReplay(db: Tables, d: Tables, egoId: string, nodeFeatures: Dict<string, seq<string>>,
                    circles: Dict<string, seq<string>>, groupOrder: seq<string>)
    requires SetUp(db, d, egoId, nodeFeatures, circles, groupOrder)
    ensures var o := RunChunks(d, [EgoInserts(egoId)]); o.result.Ok? && SameRows(d, o.db)
    ensures var o := Chunked(d, UserInserts(nodeFeatures)); o.result.Ok? && SameRows(d, o.db)
    ensures var o := Chunked(d, UserNodeInserts(nodeFeatures, egoId)); o.result.Ok? && SameRows(d, o.db)
    ensures var o := Chunked(d, CircleInserts(circles, egoId)); o.result.Ok? && SameRows(d, o.db)
  {
    ExecManyReplay(d, EgoInserts(egoId));
    assert [EgoInserts(egoId)][1..] == [];
    ChunkedReplay(d, UserInserts(nodeFeatures));
    ChunkedReplay(d, UserNodeInserts(nodeFeatures, egoId));
    ChunkedReplay(d, CircleInserts(circles, egoId));
  }

  /** With every group committed, each feature's group is in `group_map` and each feature row is accepted. */
  lemma FeatureSucceeds(setup: Outcome, features: seq<(string, string)>, groupOrder: seq<string>)
    requires setup.result.Ok? && Consistent(setup.db) && AllInserted(setup.db, GroupInserts(groupOrder))
    requires EnumeratesSet(groupOrder, GroupNames(features))
    ensures FeatureSpec(setup, features).result.Ok?
    ensures var d5 := setup.db; var d6 := FeatureSpec(setup, features).db;
      Consistent(d6) && Grows(d5, d6)
      && forall i | 0 <= i < |features| :: exists r | r in d6.featureName ::
           r.name == features[i].1 && Get(GroupMap(d5.featureGroup), features[i].0) == Some(r.groupId)
  {
    var d5 := setup.db;
    var gm := GroupMap(d5.featureGroup);
    forall i | 0 <= i < |features| ensures features[i].0 in Keys(gm) {
      var g := features[i].0;
      assert g in GroupNames(features);
      var k :| 0 <= k < |groupOrder| && groupOrder[k] == g;
      assert Inserted(d5, GroupInserts(groupOrder)[k]);
      GroupMapKeys(d5.featureGroup, g);
    }
    var rows := FeatureRows(features, gm).value;
    forall i | 0 <= i < |rows| ensures Exec(d5, rows[i]).Ok? {
      GroupMapIds(d5.featureGroup, features[i].0);
    }
    StepOk(d5, rows);
    var d6 := Chunked(d5, rows).db;
    forall i | 0 <= i < |features| ensures exists r | r in d6.featureName ::
      r.name == features[i].1 && Get(gm, features[i].0) == Some(r.groupId)
    {
      assert Inserted(d6, rows[i]);
      var r :| r in d6.featureName && FeatureKey(r) == (Get(gm, features[i].0).value, features[i].1);
    }
  }

  /** The `feature_group` rows a group step adds to a valid database, numbered from its sequence. */
  function NewGroups(serial: int, names: seq<string>): seq<GroupRow> {
    seq(|names|, k requires 0 <= k < |names| => GroupRow(serial + k, names[k]))
  }

  /** Every stored group id is below the sequence's next value. */
  predicate IdsBelow(rows: seq<GroupRow>, serial: int) {
    forall i | 0 <= i < |rows| :: rows[i].groupId < serial
  }

  /** One group row, on tables whose group ids are below the sequence: it is appended under the next id. */
  lemma GroupExec(db: Tables, name: string)
    requires IdsBelow(db.featureGroup, db.groupSerial)
    ensures Exec(db, InsertGroup(name))
      == Ok(db.(groupSerial := db.groupSerial + 1, featureGroup := db.featureGroup + [GroupRow(db.groupSerial, name)]))
    ensures IdsBelow(db.featureGroup + [GroupRow(db.groupSerial, name)], db.groupSerial + 1)
  {
    SerialAheadFresh(db.featureGroup, db.groupSerial, 0);
  }

  /** On a valid database the group step appends one new row per name, names already stored included. */
  lemma {:induction false} GroupBatch(db: Tables, names: seq<string>)
    requires IdsBelow(db.featureGroup, db.groupSerial)
    ensures ExecMany(db, GroupInserts(names)).Ok?
    ensures ExecMany(db, GroupInserts(names)).value.featureGroup == db.featureGroup + NewGroups(db.groupSerial, names)
    decreases |names|
  {
    if names == [] {
      assert db.featureGroup + NewGroups(db.groupSerial, names) == db.featureGroup;
    } else {
      var row := GroupRow(db.groupSerial, names[0]);
      var d1 := db.(groupSerial := db.groupSerial + 1, featureGroup := db.featureGroup + [row]);
      GroupInsertsCons(names);
      GroupExec(db, names[0]);
      ExecManyStep(db, GroupInserts(names));
      GroupBatch(d1, names[1..]);
      NewGroupsCons(db.groupSerial, names);
      AppendAfter(db.featureGroup, row, NewGroups(d1.groupSerial, names[1..]), NewGroups(db.groupSerial, names));
    }
  }

  lemma AppendAfter(rows: seq<GroupRow>, row: GroupRow, rest: seq<GroupRow>, added: seq<GroupRow>)
    requires added == [row] + rest
    ensures (rows + [row]) + rest == rows + added
  {
  }

  lemma GroupInsertsCons(names: seq<string>)
    requires names != []
    ensures GroupInserts(names)[0] == InsertGroup(names[0]) && GroupInserts(names)[1..] == GroupInserts(names[1..])
  {
  }

  lemma NewGroupsCons(serial: int, names: seq<string>)
    requires names != []
    ensures NewGroups(serial, names) == [GroupRow(serial, names[0])] + NewGroups(serial + 1, names[1..])
  {
  }

  /** Behind any rows, the new group of a name from a distinct list is the one `group_map` keeps. */
  lemma NewGroupsLatest(rows: seq<GroupRow>, serial: int, names: seq<string>, k: nat)
    requires Distinct(names) && k < |names|
    ensures var gm := GroupMap(rows + NewGroups(serial, names));
      names[k] in Keys(gm) && Get(gm, names[k]) == Some(serial + k)
  {
    var all := rows + NewGroups(serial, names);
    var i := |rows| + k;
    assert all[i] == GroupRow(serial + k, names[k]);
    forall j | i < j < |all| ensures all[j].groupName != names[k] {
      assert all[j] == GroupRow(serial + (j - |rows|), names[j - |rows|]);
    }
    GroupMapLatest(all, i);
    GroupMapKeys(all, names[k]);
    assert all[i] in all;
  }

  /** No stored group has an id at or beyond the sequence's next value. */
  lemma SerialAheadFresh(rows: seq<GroupRow>, serial: int, k: nat)
    requires IdsBelow(rows, serial)
    ensures serial + k !in GroupIds(rows)
  {
    forall r | r in rows ensures r.groupId != serial + k {
      var x :| 0 <= x < |rows| && rows[x] == r;
    }
  }

  /**
    After the group step, every name of a distinct `groupOrder` maps in `group_map` to a
    group that step created, not to one stored before it.
   */
  lemma GroupStepMap(d4: Tables, groupOrder: seq<string>, name: string)
    requires Consistent(d4) && Distinct(groupOrder) && name in groupOrder
    ensures var gm := GroupMap(Chunked(d4, GroupInserts(groupOrder)).db.featureGroup);
      name in Keys(gm) && Get(gm, name).value !in GroupIds(d4.featureGroup)
  {
    GroupBatch(d4, groupOrder);
    ChunkedAsOne(d4, GroupInserts(groupOrder));
    var k :| 0 <= k < |groupOrder| && groupOrder[k] == name;
    NewGroupsLatest(d4.featureGroup, d4.groupSerial, groupOrder, k);
    SerialAheadFresh(d4.featureGroup, d4.groupSerial, k);
  }

  /** Some `feature_name` row carries `name` under a group outside `ids`. */
  predicate NamedOutside(rows: seq<FeatureRow>, name: string, ids: set<int>) {
    exists r | r in rows :: r.name == name && r.groupId !in ids
  }

  /**
    A group step and the feature step after it file every feature under a group that
    group step created: on a database that already holds the features, they are stored
    a second time.
   */
  lemma FeaturesUnderNewGroups(d4: Tables, features: seq<(string, string)>, groupOrder: seq<string>)
    requires Consistent(d4) && EnumeratesSet(groupOrder, GroupNames(features))
    ensures var d6 := FeatureSpec(Chunked(d4, GroupInserts(groupOrder)), features).db;
      forall i | 0 <= i < |features| :: NamedOutside(d6.featureName, features[i].1, GroupIds(d4.featureGroup))
  {
    var setup := Chunked(d4, GroupInserts(groupOrder));
    GroupStep(d4, groupOrder);
    FeatureSucceeds(setup, features, groupOrder);
    var d6 := FeatureSpec(setup, features).db;
    forall i | 0 <= i < |features| ensures NamedOutside(d6.featureName, features[i].1, GroupIds(d4.featureGroup)) {
      assert features[i].0 in GroupNames(features);
      GroupStepMap(d4, groupOrder, features[i].0);
    }
  }

  /** `n` is neither the ego, nor a user of this network, nor a node stored before the ingest. */
  predicate Unknown(db: Tables, egoId: string, nodeFeatures: Dict<string, seq<string>>, n: string) {
    n !in db.node && n != egoId && n !in Keys(nodeFeatures)
  }

  /**
    The only ways the ingest of a valid database fails: a feature name tagged on a node
    that no feature row carries, a key of `ego_features` that is not a node, or an edge
    with an endpoint that is not a node. The group lookup never fails.
   */
  predicate Explained(db: Tables, egoId: string, features: seq<(string, string)>,
                      nodeFeatures: Dict<string, seq<string>>, egoFeatures: Dict<string, seq<string>>, e: IngestError)
  {
    match e
    case MissingGroup(_) => false
    case NoFeatureNamed(name) =>
      (exists p | p in Pairs(nodeFeatures) + Pairs(egoFeatures) :: p.1 == name)
      && (forall i | 0 <= i < |features| :: features[i].1 != name)
      && (forall r | r in db.featureName :: r.name != name)
    case SqlFailure(ForeignKeyViolation(s)) =>
      (s.InsertNodeFeature? && s.taggedNode in Keys(egoFeatures) && Unknown(db, egoId, nodeFeatures, s.taggedNode))
      || (s.InsertEdge? && s.edgeEgo == egoId && (Unknown(db, egoId, nodeFeatures, s.src) || Unknown(db, egoId, nodeFeatures, s.dst)))
  }

  lemma ChunkedConsistent(db: Tables, stmts: seq<Insert>)
    requires Consistent(db)
    ensures Consistent(Chunked(db, stmts).db) && Grows(db, Chunked(db, stmts).db)
  {
    RunChunksConsistent(db, Chunks(stmts, DefaultChunkSize));
    ChunkedAsOne(db, stmts);
  }

  lemma FeatureRowsGrow(rows: seq<FeatureRow>, rows': seq<FeatureRow>, r: FeatureRow)
    requires rows <= rows' && r in rows
    ensures r in rows'
  {
    var i :| 0 <= i < |rows| && rows[i] == r;
    assert rows'[i] == r;
  }

  /** The name lookup fails only for a name no stored feature carries. */
  lemma ResolveFailure(db: Tables, d6: Tables, features: seq<(string, string)>,
                       pairs: seq<(string, string)>, name: string)
    requires Consistent(d6) && Grows(db, d6)
    requires forall i | 0 <= i < |features| :: exists r | r in d6.featureName :: r.name == features[i].1
    requires ResolveFeature(FeatureIdMap(d6.featureName), name).None?
    ensures forall i | 0 <= i < |features| :: features[i].1 != name
    ensures forall r | r in db.featureName :: r.name != name
  {
    ResolveFeatureRow(d6.featureName, name);
    forall r | r in d6.featureName ensures r.name != name {
      var i :| 0 <= i < |d6.featureName| && d6.featureName[i] == r;
    }
    forall r | r in db.featureName ensures r.name != name {
      FeatureRowsGrow(db.featureName, d6.featureName, r);
    }
  }

  /** A `node_feature` row is refused only for a node that is not stored. */
  lemma TagRowFailure(db: Tables, d6: Tables, egoId: string, nodeFeatures: Dict<string, seq<string>>,
                      egoFeatures: Dict<string, seq<string>>, rows: seq<Insert>)
    requires Grows(db, d6) && AllInserted(d6, EgoInserts(egoId)) && AllInserted(d6, UserInserts(nodeFeatures))
    requires NodeFeatureRows(nodeFeatures, egoFeatures, FeatureIdMap(d6.featureName)) == Ok(rows)
    requires ExecMany(d6, rows).Err?
    ensures var s := ExecMany(d6, rows).error.statement;
      s.InsertNodeFeature? && s.taggedNode in Keys(egoFeatures) && Unknown(db, egoId, nodeFeatures, s.taggedNode)
  {
    var pairs := Pairs(nodeFeatures) + Pairs(egoFeatures);
    RefusedTag(d6, pairs, rows);
    var k :| 0 <= k < |pairs| && pairs[k].0 !in d6.node && ExecMany(d6, rows).error.statement.taggedNode == pairs[k].0;
    UnstoredKey(db, d6, egoId, nodeFeatures, egoFeatures, pairs[k]);
  }

  /** The refused row tags the node of some pair, and that node is not stored. */
  lemma RefusedTag(d6: Tables, pairs: seq<(string, string)>, rows: seq<Insert>)
    requires ResolveAll(pairs, FeatureIdMap(d6.featureName)) == Ok(rows)
    requires ExecMany(d6, rows).Err?
    ensures ExecMany(d6, rows).error.statement.InsertNodeFeature?
    ensures exists k | 0 <= k < |pairs| :: (
      pairs[k].0 !in d6.node && ExecMany(d6, rows).error.statement.taggedNode == pairs[k].0)
  {
    var fmap := FeatureIdMap(d6.featureName);
    ResolveAllMeaning(pairs, fmap);
    var s := ExecMany(d6, rows).error.statement;
    var k :| 0 <= k < |rows| && rows[k] == s;
    ResolveFeatureIds(d6.featureName, pairs[k].1);
    ExecManyFails(d6, rows);
    var d :| Grows(d6, d) && Exec(d, s).Err?;
    RefusedNode(d6, d, s.taggedNode, s.taggedFeature);
  }

  /** A `node_feature` row whose feature exists is refused only for want of its node. */
  lemma RefusedNode(d6: Tables, d: Tables, n: string, f: int)
    requires Grows(d6, d) && f in FeatureIds(d6.featureName)
    requires Exec(d, InsertNodeFeature(n, f)).Err?
    ensures n !in d6.node
  {
    FeatureIdsGrow(d6.featureName, d.featureName);
  }

  /** A node tagged by a pair and not stored after the user steps is an unknown key of `ego_features`. */
  lemma UnstoredKey(db: Tables, d6: Tables, egoId: string, nodeFeatures: Dict<string, seq<string>>,
                    egoFeatures: Dict<string, seq<string>>, p: (string, string))
    requires Grows(db, d6) && AllInserted(d6, EgoInserts(egoId)) && AllInserted(d6, UserInserts(nodeFeatures))
    requires p in Pairs(nodeFeatures) + Pairs(egoFeatures) && p.0 !in d6.node
    ensures p.0 in Keys(egoFeatures) && Unknown(db, egoId, nodeFeatures, p.0)
  {
    UnstoredUnknown(db, d6, egoId, nodeFeatures, p.0);
    if p in Pairs(nodeFeatures) {
      PairsFrom(nodeFeatures, p);
    } else {
      PairsFrom(egoFeatures, p);
    }
  }

  /** A node that is not stored once the users are committed is unknown to the ingest. */
  lemma UnstoredUnknown(db: Tables, d: Tables, egoId: string, nodeFeatures: Dict<string, seq<string>>, n: string)
    requires Grows(db, d) && AllInserted(d, EgoInserts(egoId)) && AllInserted(d, UserInserts(nodeFeatures))
    requires n !in d.node
    ensures Unknown(db, egoId, nodeFeatures, n)
  {
    assert Inserted(d, EgoInserts(egoId)[0]);
    forall j | 0 <= j < |nodeFeatures| ensures Keys(nodeFeatures)[j] != n {
      assert Inserted(d, UserInserts(nodeFeatures)[j]);
    }
  }

  /** The `node_feature` step fails only as `Explained` says. */
  lemma TagOutcome(db: Tables, featured: Outcome, egoId: string, features: seq<(string, string)>,
                   nodeFeatures: Dict<string, seq<string>>, egoFeatures: Dict<string, seq<string>>)
    requires featured.result.Ok?
    requires var d6 := featured.db; Consistent(d6) && Grows(db, d6)
    requires var d6 := featured.db; AllInserted(d6, EgoInserts(egoId)) && AllInserted(d6, UserInserts(nodeFeatures))
    requires forall i | 0 <= i < |features| :: exists r | r in featured.db.featureName :: r.name == features[i].1
    ensures var o := TagSpec(featured, nodeFeatures, egoFeatures);
      Consistent(o.db) && Grows(featured.db, o.db)
      && (o.result.Err? ==> Explained(db, egoId, features, nodeFeatures, egoFeatures, o.result.error))
  {
    var d6 := featured.db;
    var pairs := Pairs(nodeFeatures) + Pairs(egoFeatures);
    var fmap := FeatureIdMap(d6.featureName);
    match NodeFeatureRows(nodeFeatures, egoFeatures, fmap)
    case Err(e) =>
      ResolveAllMeaning(pairs, fmap);
      var i :| 0 <= i < |pairs| && e == NoFeatureNamed(pairs[i].1) && ResolveFeature(fmap, pairs[i].1).None?;
      ResolveFailure(db, d6, features, pairs, pairs[i].1);
      assert pairs[i] in pairs;
      assert Grows(d6, d6);
    case Ok(rows) =>
      ChunkedConsistent(d6, rows);
      ChunkedAsOne(d6, rows);
      if ExecMany(d6, rows).Err? {
        TagRowFailure(db, d6, egoId, nodeFeatures, egoFeatures, rows);
      }
  }

  /** The `edge` step fails only on an edge with an endpoint that is not stored. */
  lemma EdgeOutcome(db: Tables, tagged: Outcome, egoId: string, features: seq<(string, string)>,
                    nodeFeatures: Dict<string, seq<string>>, egoFeatures: Dict<string, seq<string>>,
                    edges: seq<(string, string)>)
    requires tagged.result.Ok?
    requires var d7 := tagged.db; Consistent(d7) && Grows(db, d7)
    requires var d7 := tagged.db; AllInserted(d7, EgoInserts(egoId)) && AllInserted(d7, UserInserts(nodeFeatures))
    ensures var o := Continue(tagged, EdgeInserts(edges, egoId));
      Consistent(o.db) && Grows(tagged.db, o.db)
      && (o.result.Err? ==> Explained(db, egoId, features, nodeFeatures, egoFeatures, o.result.error))
  {
    var d7 := tagged.db;
    var rows := EdgeInserts(edges, egoId);
    ChunkedConsistent(d7, rows);
    ChunkedAsOne(d7, rows);
    if ExecMany(d7, rows).Err? {
      EdgeRowFailure(db, d7, egoId, nodeFeatures, edges);
    }
  }

  lemma EdgeRowFailure(db: Tables, d7: Tables, egoId: string, nodeFeatures: Dict<string, seq<string>>,
                       edges: seq<(string, string)>)
    requires Grows(db, d7) && AllInserted(d7, EgoInserts(egoId)) && AllInserted(d7, UserInserts(nodeFeatures))
    requires ExecMany(d7, EdgeInserts(edges, egoId)).Err?
    ensures var s := ExecMany(d7, EdgeInserts(edges, egoId)).error.statement;
      s.InsertEdge? && s.edgeEgo == egoId
      && (Unknown(db, egoId, nodeFeatures, s.src) || Unknown(db, egoId, nodeFeatures, s.dst))
  {
    var rows := EdgeInserts(edges, egoId);
    var s := ExecMany(d7, rows).error.statement;
    var k :| 0 <= k < |rows| && rows[k] == s;
    ExecManyFails(d7, rows);
    var d :| Grows(d7, d) && Exec(d, s).Err?;
    assert Inserted(d7, EgoInserts(egoId)[1]);
    assert s.src !in d7.node || s.dst !in d7.node;
    if s.src !in d7.node {
      UnstoredUnknown(db, d7, egoId, nodeFeatures, s.src);
    } else {
      UnstoredUnknown(db, d7, egoId, nodeFeatures, s.dst);
    }
  }

  /** What the ingest has committed once the feature rows are in. */
  lemma FeaturedState(db: Tables, egoId: string, features: seq<(string, string)>,
                      nodeFeatures: Dict<string, seq<string>>, circles: Dict<string, seq<string>>, groupOrder: seq<string>)
    requires Consistent(db) && EnumeratesSet(groupOrder, GroupNames(features))
    ensures var o := FeatureSpec(SetupSpec(db, egoId, nodeFeatures, circles, groupOrder), features);
      o.result.Ok? && Consistent(o.db) && Grows(db, o.db)
      && AllInserted(o.db, EgoInserts(egoId)) && AllInserted(o.db, UserInserts(nodeFeatures))
      && forall i | 0 <= i < |features| :: exists r | r in o.db.featureName :: r.name == features[i].1
  {
    var setup := SetupSpec(db, egoId, nodeFeatures, circles, groupOrder);
    SetupSucceeds(db, egoId, nodeFeatures, circles, groupOrder);
    var d5 := setup.db;
    FeatureSucceeds(setup, features, groupOrder);
    var d6 := FeatureSpec(setup, features).db;
    AllInsertedGrows(d5, d6, EgoInserts(egoId));
    AllInsertedGrows(d5, d6, UserInserts(nodeFeatures));
    GrowsTrans(db, d5, d6);
  }

  /**
    On a consistent database the ingest keeps every constraint, and when it fails the
    failure is one `Explained` lists: in particular the group lookup never fails, and
    no step before the feature names are resolved raises.
   */
  lemma IngestFailures(db: Tables, egoId: string, edges: seq<(string, string)>, features: seq<(string, string)>,
                       nodeFeatures: Dict<string, seq<string>>, egoFeatures: Dict<string, seq<string>>,
                       circles: Dict<string, seq<string>>, groupOrder: seq<string>)
    requires Consistent(db) && EnumeratesSet(groupOrder, GroupNames(features))
    ensures var o := IngestSpec(db, egoId, edges, features, nodeFeatures, egoFeatures, circles, groupOrder);
      Consistent(o.db)
      && (o.result.Err? ==> Explained(db, egoId, features, nodeFeatures, egoFeatures, o.result.error))
  {
    FeaturedState(db, egoId, features, nodeFeatures, circles, groupOrder);
    var featured := FeatureSpec(SetupSpec(db, egoId, nodeFeatures, circles, groupOrder), features);
    var d6 := featured.db;
    TagOutcome(db, featured, egoId, features, nodeFeatures, egoFeatures);
    var tagged := TagSpec(featured, nodeFeatures, egoFeatures);
    if tagged.result.Ok? {
      var d7 := tagged.db;
      AllInsertedGrows(d6, d7, EgoInserts(egoId));
      AllInsertedGrows(d6, d7, UserInserts(nodeFeatures));
      GrowsTrans(db, d6, d7);
      EdgeOutcome(db, tagged, egoId, features, nodeFeatures, egoFeatures, edges);
    }
  }

  // ---------------------------------------------------------------- what the ingest stores

  lemma ContinueOwned(o: Outcome, stmts: seq<Insert>, egoId: string)
    requires forall i | 0 <= i < |stmts| :: ClaimsFor(stmts[i], egoId)
    ensures OwnedSince(o.db, Continue(o, stmts).db, egoId)
  {
    if o.result.Err? {
      assert Grows(o.db, o.db);
    } else {
      ChunkedOwned(o.db, stmts, egoId);
    }
  }

  lemma SetupOwned(db: Tables, egoId: string, nodeFeatures: Dict<string, seq<string>>,
                   circles: Dict<string, seq<string>>, groupOrder: seq<string>)
    ensures OwnedSince(db, SetupSpec(db, egoId, nodeFeatures, circles, groupOrder).db, egoId)
  {
    var ego := RunChunks(db, [EgoInserts(egoId)]);
    RunChunksOwned(db, [EgoInserts(egoId)], egoId);
    var users := Continue(ego, UserInserts(nodeFeatures));
    ContinueOwned(ego, UserInserts(nodeFeatures), egoId);
    var owned := Continue(users, UserNodeInserts(nodeFeatures, egoId));
    ContinueOwned(users, UserNodeInserts(nodeFeatures, egoId), egoId);
    var circs := Continue(owned, CircleInserts(circles, egoId));
    ContinueOwned(owned, CircleInserts(circles, egoId), egoId);
    ContinueOwned(circs, GroupInserts(groupOrder), egoId);
    OwnedTrans(db, ego.db, users.db, egoId);
    OwnedTrans(db, users.db, owned.db, egoId);
    OwnedTrans(db, owned.db, circs.db, egoId);
    OwnedTrans(db, circs.db, Continue(circs, GroupInserts(groupOrder)).db, egoId);
  }

  lemma FeatureSpecOwned(o: Outcome, features: seq<(string, string)>, egoId: string)
    ensures OwnedSince(o.db, FeatureSpec(o, features).db, egoId)
  {
    if o.result.Ok? && FeatureRows(features, GroupMap(o.db.featureGroup)).Ok? {
      ChunkedOwned(o.db, FeatureRows(features, GroupMap(o.db.featureGroup)).value, egoId);
    } else {
      assert Grows(o.db, o.db);
    }
  }

  lemma TagSpecOwned(o: Outcome, nodeFeatures: Dict<string, seq<string>>, egoFeatures: Dict<string, seq<string>>, egoId: string)
    ensures OwnedSince(o.db, TagSpec(o, nodeFeatures, egoFeatures).db, egoId)
  {
    var fmap := FeatureIdMap(o.db.featureName);
    if o.result.Ok? && NodeFeatureRows(nodeFeatures, egoFeatures, fmap).Ok? {
      ResolveAllMeaning(Pairs(nodeFeatures) + Pairs(egoFeatures), fmap);
      ChunkedOwned(o.db, NodeFeatureRows(nodeFeatures, egoFeatures, fmap).value, egoId);
    } else {
      assert Grows(o.db, o.db);
    }
  }

  /** Everything after the first five steps only adds rows, and claims circles for nobody. */
  lemma AfterSetupOwned(setup: Outcome, egoId: string, edges: seq<(string, string)>, features: seq<(string, string)>,
                        nodeFeatures: Dict<string, seq<string>>, egoFeatures: Dict<string, seq<string>>)
    ensures OwnedSince(setup.db,
      Continue(TagSpec(FeatureSpec(setup, features), nodeFeatures, egoFeatures), EdgeInserts(edges, egoId)).db, egoId)
  {
    var featured := FeatureSpec(setup, features);
    FeatureSpecOwned(setup, features, egoId);
    var tagged := TagSpec(featured, nodeFeatures, egoFeatures);
    TagSpecOwned(featured, nodeFeatures, egoFeatures, egoId);
    ContinueOwned(tagged, EdgeInserts(edges, egoId), egoId);
    OwnedTrans(setup.db, featured.db, tagged.db, egoId);
    OwnedTrans(setup.db, tagged.db, Continue(tagged, EdgeInserts(edges, egoId)).db, egoId);
  }

  /**
    Whatever the outcome, the ingest deletes and alters nothing, never writes
    `circle_member`, and every circle it adds belongs to the ego.
   */
  lemma IngestOwned(db: Tables, egoId: string, edges: seq<(string, string)>, features: seq<(string, string)>,
                    nodeFeatures: Dict<string, seq<string>>, egoFeatures: Dict<string, seq<string>>,
                    circles: Dict<string, seq<string>>, groupOrder: seq<string>)
    ensures OwnedSince(db, IngestSpec(db, egoId, edges, features, nodeFeatures, egoFeatures, circles, groupOrder).db, egoId)
  {
    var setup := SetupSpec(db, egoId, nodeFeatures, circles, groupOrder);
    SetupOwned(db, egoId, nodeFeatures, circles, groupOrder);
    AfterSetupOwned(setup, egoId, edges, features, nodeFeatures, egoFeatures);
    OwnedTrans(db, setup.db, IngestSpec(db, egoId, edges, features, nodeFeatures, egoFeatures, circles, groupOrder).db, egoId);
  }

  /**
    On a consistent database, whatever the outcome, the ego, every user of the network with
    a `user_node` row, and every circle are stored. A circle id already taken by any ego keeps
    its owner (`circle_id` alone is the key); a new one belongs to this ego.
   */
  lemma IngestStores(db: Tables, egoId: string, edges: seq<(string, string)>, features: seq<(string, string)>,
                     nodeFeatures: Dict<string, seq<string>>, egoFeatures: Dict<string, seq<string>>,
                     circles: Dict<string, seq<string>>, groupOrder: seq<string>)
    requires Consistent(db)
    ensures var d := IngestSpec(db, egoId, edges, features, nodeFeatures, egoFeatures, circles, groupOrder).db;
      egoId in d.ego
      && (forall i | 0 <= i < |nodeFeatures| :: nodeFeatures[i].0 in d.node && nodeFeatures[i].0 in d.userNode)
      && (forall i | 0 <= i < |circles| :: circles[i].0 in d.circle
            && d.circle[circles[i].0] == if circles[i].0 in db.circle then db.circle[circles[i].0] else egoId)
  {
    var setup := SetupSpec(db, egoId, nodeFeatures, circles, groupOrder);
    SetupSucceeds(db, egoId, nodeFeatures, circles, groupOrder);
    var d := IngestSpec(db, egoId, edges, features, nodeFeatures, egoFeatures, circles, groupOrder).db;
    AfterSetupOwned(setup, egoId, edges, features, nodeFeatures, egoFeatures);
    IngestOwned(db, egoId, edges, features, nodeFeatures, egoFeatures, circles, groupOrder);
    AllInsertedGrows(setup.db, d, EgoInserts(egoId));
    AllInsertedGrows(setup.db, d, UserInserts(nodeFeatures));
    AllInsertedGrows(setup.db, d, UserNodeInserts(nodeFeatures, egoId));
    AllInsertedGrows(setup.db, d, CircleInserts(circles, egoId));
    assert Inserted(d, EgoInserts(egoId)[1]);
    forall i | 0 <= i < |nodeFeatures| ensures nodeFeatures[i].0 in d.node && nodeFeatures[i].0 in d.userNode {
      assert Inserted(d, UserInserts(nodeFeatures)[i]);
      assert Inserted(d, UserNodeInserts(nodeFeatures, egoId)[i]);
    }
    forall i | 0 <= i < |circles| ensures circles[i].0 in d.circle {
      assert Inserted(d, CircleInserts(circles, egoId)[i]);
    }
  }

  /**
    On a valid database every ingest stores each feature under a group this ingest
    created, whatever the later steps do: the groups it finds already stored are never
    reused.
   */
  lemma IngestFilesUnderNewGroups(db: Tables, egoId: string, edges: seq<(string, string)>, features: seq<(string, string)>,
                                  nodeFeatures: Dict<string, seq<string>>, egoFeatures: Dict<string, seq<string>>,
                                  circles: Dict<string, seq<string>>, groupOrder: seq<string>)
    requires Consistent(db) && EnumeratesSet(groupOrder, GroupNames(features))
    ensures var d := IngestSpec(db, egoId, edges, features, nodeFeatures, egoFeatures, circles, groupOrder).db;
      forall i | 0 <= i < |features| :: NamedOutside(d.featureName, features[i].1, GroupIds(db.featureGroup))
  {
    SetupEndsWithGroups(db, egoId, nodeFeatures, circles, groupOrder);
    var setup := SetupSpec(db, egoId, nodeFeatures, circles, groupOrder);
    var d4 :| Consistent(d4) && GroupIds(db.featureGroup) <= GroupIds(d4.featureGroup)
              && setup == Chunked(d4, GroupInserts(groupOrder));
    FeaturesUnderNewGroups(d4, features, groupOrder);
    var featured := FeatureSpec(setup, features);
    var d := Continue(TagSpec(featured, nodeFeatures, egoFeatures), EdgeInserts(edges, egoId)).db;
    assert d == IngestSpec(db, egoId, edges, features, nodeFeatures, egoFeatures, circles, groupOrder).db;
    LaterStepsGrow(featured, egoId, edges, nodeFeatures, egoFeatures);
    NamedRowsGrow(featured.db.featureName, d.featureName, features, GroupIds(d4.featureGroup), GroupIds(db.featureGroup));
  }

  /** Rows naming each feature outside a set of groups are still there once the table has grown. */
  lemma NamedRowsGrow(rows: seq<FeatureRow>, rows': seq<FeatureRow>, features: seq<(string, string)>,
                      ids: set<int>, ids': set<int>)
    requires rows <= rows' && ids' <= ids
    requires forall i | 0 <= i < |features| :: NamedOutside(rows, features[i].1, ids)
    ensures forall i | 0 <= i < |features| :: NamedOutside(rows', features[i].1, ids')
  {
    forall i | 0 <= i < |features| ensures NamedOutside(rows', features[i].1, ids') {
      assert NamedOutside(rows, features[i].1, ids);
      var r :| r in rows && r.name == features[i].1 && r.groupId !in ids;
      FeatureRowsGrow(rows, rows', r);
    }
  }

  /** On a valid database the setup ends with the group step on a valid state that has every group stored before it. */
  lemma SetupEndsWithGroups(db: Tables, egoId: string, nodeFeatures: Dict<string, seq<string>>,
                            circles: Dict<string, seq<string>>, groupOrder: seq<string>)
    requires Consistent(db)
    ensures exists d4 :: (Consistent(d4) && GroupIds(db.featureGroup) <= GroupIds(d4.featureGroup)
      && SetupSpec(db, egoId, nodeFeatures, circles, groupOrder) == Chunked(d4, GroupInserts(groupOrder)))
  {
    EgoStep(db, egoId);
    var d1 := RunChunks(db, [EgoInserts(egoId)]).db;
    UserSteps(d1, egoId, nodeFeatures);
    var d2 := Chunked(d1, UserInserts(nodeFeatures)).db;
    var d3 := Chunked(d2, UserNodeInserts(nodeFeatures, egoId)).db;
    CircleGroupSteps(d3, egoId, circles, groupOrder);
    ChunkedConsistent(d3, CircleInserts(circles, egoId));
    var d4 := Chunked(d3, CircleInserts(circles, egoId)).db;
    assert SetupSpec(db, egoId, nodeFeatures, circles, groupOrder) == Chunked(d4, GroupInserts(groupOrder));
    GrowsTrans(db, d1, d3);
    GrowsTrans(db, d3, d4);
    GroupIdsGrow(db.featureGroup, d4.featureGroup);
  }

  /** The steps after the feature names only add rows. */
  lemma LaterStepsGrow(featured: Outcome, egoId: string, edges: seq<(string, string)>,
                       nodeFeatures: Dict<string, seq<string>>, egoFeatures: Dict<string, seq<string>>)
    ensures Grows(featured.db, Continue(TagSpec(featured, nodeFeatures, egoFeatures), EdgeInserts(edges, egoId)).db)
  {
    var tagged := TagSpec(featured, nodeFeatures, egoFeatures);
    TagSpecOwned(featured, nodeFeatures, egoFeatures, egoId);
    ContinueOwned(tagged, EdgeInserts(edges, egoId), egoId);
    OwnedTrans(featured.db, tagged.db, Continue(tagged, EdgeInserts(edges, egoId)).db, egoId);
  }

  /** Two `feature_name` rows carry `name`, under different groups. */
  predicate NamedTwice(rows: seq<FeatureRow>, name: string) {
    exists r1, r2 | r1 in rows && r2 in rows :: r1.name == name && r2.name == name && r1.groupId != r2.groupId
  }

  /**
    Running the same ingest twice on a valid database stores every feature name at least
    twice: once under a group of the first run and once under a group of the second.
   */
  lemma ReingestDuplicatesFeatures(db: Tables, egoId: string, edges: seq<(string, string)>, features: seq<(string, string)>,
                                   nodeFeatures: Dict<string, seq<string>>, egoFeatures: Dict<string, seq<string>>,
                                   circles: Dict<string, seq<string>>, groupOrder: seq<string>)
    requires Consistent(db) && EnumeratesSet(groupOrder, GroupNames(features))
    ensures var d1 := IngestSpec(db, egoId, edges, features, nodeFeatures, egoFeatures, circles, groupOrder).db;
      var d2 := IngestSpec(d1, egoId, edges, features, nodeFeatures, egoFeatures, circles, groupOrder).db;
      forall i | 0 <= i < |features| :: NamedTwice(d2.featureName, features[i].1)
  {
    var d1 := IngestSpec(db, egoId, edges, features, nodeFeatures, egoFeatures, circles, groupOrder).db;
    var d2 := IngestSpec(d1, egoId, edges, features, nodeFeatures, egoFeatures, circles, groupOrder).db;
    IngestFilesUnderNewGroups(db, egoId, edges, features, nodeFeatures, egoFeatures, circles, groupOrder);
    IngestFailures(db, egoId, edges, features, nodeFeatures, egoFeatures, circles, groupOrder);
    IngestFilesUnderNewGroups(d1, egoId, edges, features, nodeFeatures, egoFeatures, circles, groupOrder);
    IngestOwned(d1, egoId, edges, features, nodeFeatures, egoFeatures, circles, groupOrder);
    forall i | 0 <= i < |features| ensures NamedTwice(d2.featureName, features[i].1) {
      var r1 :| r1 in d1.featureName && r1.name == features[i].1;
      var x :| 0 <= x < |d1.featureName| && d1.featureName[x] == r1;
      assert r1.groupId in GroupIds(d1.featureGroup);
      FeatureRowsGrow(d1.featureName, d2.featureName, r1);
      var r2 :| r2 in d2.featureName && r2.name == features[i].1 && r2.groupId !in GroupIds(d1.featureGroup);
    }
  }

  // ---------------------------------------------------------------- the loops that build node_feature_rows

  /** One more pair: its row is appended, or its name is the error. */
  lemma ResolveAllStep(ps: seq<(string, string)>, p: (string, string), featureIdMap: Dict<(int, string), int>, rows: seq<Insert>)
    requires ResolveAll(ps, featureIdMap) == Ok(rows)
    ensures ResolveAll(ps + [p], featureIdMap) ==
      match ResolveFeature(featureIdMap, p.1)
      case None => Err(NoFeatureNamed(p.1))
      case Some(fid) => Ok(rows + [InsertNodeFeature(p.0, fid)])
  {
    assert (ps + [p])[..|ps|] == ps;
  }

  lemma TaggedSnoc(node: string, names: seq<string>, j: nat)
    requires j < |names|
    ensures Tagged(node, names[..j + 1]) == Tagged(node, names[..j]) + [(node, names[j])]
  {
  }

  lemma TaggedSplit(node: string, names: seq<string>, j: nat)
    requires j < |names|
    ensures Tagged(node, names) == Tagged(node, names[..j + 1]) + Tagged(node, names[j + 1..])
  {
  }

  /** One name of a node's list resolves: the prefix's rows gain its row. */
  lemma ValueResolved(done: seq<(string, string)>, node: string, names: seq<string>, j: nat,
                      featureIdMap: Dict<(int, string), int>, acc: seq<Insert>)
    requires j < |names| && ResolveAll(done + Tagged(node, names[..j]), featureIdMap) == Ok(acc)
    requires ResolveFeature(featureIdMap, names[j]).Some?
    ensures ResolveAll(done + Tagged(node, names[..j + 1]), featureIdMap)
         == Ok(acc + [InsertNodeFeature(node, ResolveFeature(featureIdMap, names[j]).value)])
  {
    ghost var seen := done + Tagged(node, names[..j]);
    TaggedSnoc(node, names, j);
    assert done + Tagged(node, names[..j + 1]) == seen + [(node, names[j])];
    ResolveAllStep(seen, (node, names[j]), featureIdMap, acc);
  }

  /** One name of a node's list does not resolve: the prefix through it fails on it. */
  lemma ValueRefused(done: seq<(string, string)>, node: string, names: seq<string>, j: nat,
                     featureIdMap: Dict<(int, string), int>, acc: seq<Insert>)
    requires j < |names| && ResolveAll(done + Tagged(node, names[..j]), featureIdMap) == Ok(acc)
    requires ResolveFeature(featureIdMap, names[j]).None?
    ensures ResolveAll(done + Tagged(node, names[..j + 1]), featureIdMap) == Err(NoFeatureNamed(names[j]))
  {
    ghost var seen := done + Tagged(node, names[..j]);
    TaggedSnoc(node, names, j);
    assert done + Tagged(node, names[..j + 1]) == seen + [(node, names[j])];
    ResolveAllStep(seen, (node, names[j]), featureIdMap, acc);
  }

  /** An error on a prefix of a node's list is the error of the whole list. */
  lemma ValueRefusedAll(done: seq<(string, string)>, node: string, names: seq<string>, j: nat,
                        featureIdMap: Dict<(int, string), int>)
    requires j < |names| && ResolveAll(done + Tagged(node, names[..j + 1]), featureIdMap).Err?
    ensures ResolveAll(done + Tagged(node, names), featureIdMap)
         == ResolveAll(done + Tagged(node, names[..j + 1]), featureIdMap)
  {
    TaggedSplit(node, names, j);
    ResolveAllErrJoin(done, Tagged(node, names[..j + 1]), Tagged(node, names[j + 1..]), featureIdMap);
  }

  /** `for name in feats:` for one node: its rows are appended, or the first unknown name ends the loop. */
  method ResolveValues(rows: seq<Insert>, ghost done: seq<(string, string)>, node: string, names: seq<string>,
                       featureIdMap: Dict<(int, string), int>) returns (r: Result<seq<Insert>, IngestError>)
    requires ResolveAll(done, featureIdMap) == Ok(rows)
    ensures r == ResolveAll(done + Tagged(node, names), featureIdMap)
  {
    var acc := rows;
    var j := 0;
    assert done + Tagged(node, names[..0]) == done;
    while j < |names|
      invariant 0 <= j <= |names|
      invariant ResolveAll(done + Tagged(node, names[..j]), featureIdMap) == Ok(acc)
    {
      var fid := ResolveFeature(featureIdMap, names[j]);
      if fid.None? {
        ValueRefused(done, node, names, j, featureIdMap, acc);
        ValueRefusedAll(done, node, names, j, featureIdMap);
        return Err(NoFeatureNamed(names[j]));
      }
      ValueResolved(done, node, names, j, featureIdMap, acc);
      acc := acc + [InsertNodeFeature(node, fid.value)];
      j := j + 1;
    }
    assert names[..j] == names;
    r := Ok(acc);
  }

  lemma PairsPrefix(d: Dict<string, seq<string>>, i: nat)
    requires i < |d|
    ensures Pairs(d[..i + 1]) == Pairs(d[..i]) + Tagged(d[i].0, d[i].1)
  {
    PairsConcat(d[..i], [d[i]]);
    assert d[..i + 1] == d[..i] + [d[i]];
    assert Pairs([d[i]]) == Tagged(d[i].0, d[i].1) + Pairs([]);
  }

  lemma PairsSplit(d: Dict<string, seq<string>>, i: nat)
    requires i <= |d|
    ensures Pairs(d) == Pairs(d[..i]) + Pairs(d[i..])
  {
    var a, b := d[..i], d[i..];
    assert a + b == d;
    PairsConcat(a, b);
  }

  /** The pairs through item `i` are the pairs before it and then the item's own. */
  lemma ItemStep(done: seq<(string, string)>, d: Dict<string, seq<string>>, i: nat)
    requires i < |d|
    ensures done + Pairs(d[..i + 1]) == (done + Pairs(d[..i])) + Tagged(d[i].0, d[i].1)
  {
    PairsPrefix(d, i);
  }

  /** An error within the items through `i` is the error of all the items. */
  lemma ItemRefusedAll(done: seq<(string, string)>, d: Dict<string, seq<string>>, i: nat,
                       featureIdMap: Dict<(int, string), int>)
    requires i < |d| && ResolveAll(done + Pairs(d[..i + 1]), featureIdMap).Err?
    ensures ResolveAll(done + Pairs(d), featureIdMap) == ResolveAll(done + Pairs(d[..i + 1]), featureIdMap)
  {
    PairsSplit(d, i + 1);
    ResolveAllErrJoin(done, Pairs(d[..i + 1]), Pairs(d[i + 1..]), featureIdMap);
  }

  /** `ResolveAllErr` for a prefix written as two parts. */
  lemma ResolveAllErrJoin(x: seq<(string, string)>, y: seq<(string, string)>, z: seq<(string, string)>,
                          featureIdMap: Dict<(int, string), int>)
    requires ResolveAll(x + y, featureIdMap).Err?
    ensures ResolveAll(x + (y + z), featureIdMap) == ResolveAll(x + y, featureIdMap)
  {
    ResolveAllErr(x + y, z, featureIdMap);
    assert (x + y) + z == x + (y + z);
  }

  /** `for node_id, feats in d.items():`, appending to the rows built so far. */
  method ResolveItems(rows: seq<Insert>, ghost done: seq<(string, string)>, d: Dict<string, seq<string>>,
                      featureIdMap: Dict<(int, string), int>) returns (r: Result<seq<Insert>, IngestError>)
    requires ResolveAll(done, featureIdMap) == Ok(rows)
    ensures r == ResolveAll(done + Pairs(d), featureIdMap)
  {
    var acc := rows;
    var i := 0;
    assert done + Pairs(d[..0]) == done;
    while i < |d|
      invariant 0 <= i <= |d|
      invariant ResolveAll(done + Pairs(d[..i]), featureIdMap) == Ok(acc)
    {
      ghost var seen := done + Pairs(d[..i]);
      var (node, names) := d[i];
      ItemStep(done, d, i);
      var res := ResolveValues(acc, seen, node, names, featureIdMap);
      if res.Err? {
        ItemRefusedAll(done, d, i, featureIdMap);
        return res;
      }
      acc := res.value;
      i := i + 1;
    }
    assert d[..i] == d;
    r := Ok(acc);
  }

  /** `node_feature_rows`: the rows of every item of `node_features`, then of `ego_features`. */
  method BuildNodeFeatureRows(nodeFeatures: Dict<string, seq<string>>, egoFeatures: Dict<string, seq<string>>,
                              featureIdMap: Dict<(int, string), int>) returns (r: Result<seq<Insert>, IngestError>)
    ensures r == NodeFeatureRows(nodeFeatures, egoFeatures, featureIdMap)
  {
    assert ResolveAll([], featureIdMap) == Ok([]);
    r := ResolveItems([], [], nodeFeatures, featureIdMap);
    assert [] + Pairs(nodeFeatures) == Pairs(nodeFeatures);
    if r.Err? {
      ResolveAllErr(Pairs(nodeFeatures), Pairs(egoFeatures), featureIdMap);
      return;
    }
    r := ResolveItems(r.value, Pairs(nodeFeatures), egoFeatures, featureIdMap);
  }

  // ---------------------------------------------------------------- the ingestor

  /** The connection's database; `setup_tables` has created the tables `db` holds. */
  class PSQLIngestor {
    var db: Tables

    constructor (initial: Tables)
      ensures db == initial
    {
      db := initial;
    }

    /** `for chunk in split_to_chunks(rows): cur.executemany(.., chunk); self.conn.commit()`. */
    method RunChunked(stmts: seq<Insert>) returns (r: Result<(), IngestError>)
      modifies this
      ensures db == Chunked(old(db), stmts).db && r == Chunked(old(db), stmts).result
    {
      var chunks := ChunkList(stmts, DefaultChunkSize);
      var k := 0;
      while k < |chunks|
        invariant 0 <= k <= |chunks|
        invariant RunChunks(db, chunks[k..]) == Chunked(old(db), stmts)
      {
        var res := ExecMany(db, chunks[k]);
        if res.Err? {
          return Err(SqlFailure(res.error));
        }
        assert chunks[k..][1..] == chunks[k + 1..];
        db := res.value;
        k := k + 1;
      }
      assert chunks[k..] == [];
      r := Ok(());
    }

    /** The ego's `node` and `ego` rows: two `execute`s and one `commit`. */
    method WriteEgo(egoId: string) returns (r: Result<(), IngestError>)
      modifies this
      ensures db == RunChunks(old(db), [EgoInserts(egoId)]).db && r == RunChunks(old(db), [EgoInserts(egoId)]).result
    {
      var ego := ExecMany(db, EgoInserts(egoId));
      assert [EgoInserts(egoId)][1..] == [];
      if ego.Err? {
        return Err(SqlFailure(ego.error));
      }
      db := ego.value;
      r := Ok(());
    }

    /** The ego's two rows, the users, their `user_node` rows, the circles and the groups. */
    method Setup(egoId: string, nodeFeatures: Dict<string, seq<string>>,
                 circles: Dict<string, seq<string>>, groupOrder: seq<string>) returns (r: Result<(), IngestError>)
      modifies this
      ensures db == SetupSpec(old(db), egoId, nodeFeatures, circles, groupOrder).db
      ensures r == SetupSpec(old(db), egoId, nodeFeatures, circles, groupOrder).result
    {
      ghost var o := RunChunks(db, [EgoInserts(egoId)]);
      r := WriteEgo(egoId);
      if r.Err? { return; }
      r := RunChunked(UserInserts(nodeFeatures));
      o := Continue(o, UserInserts(nodeFeatures));
      if r.Err? { return; }
      r := RunChunked(UserNodeInserts(nodeFeatures, egoId));
      o := Continue(o, UserNodeInserts(nodeFeatures, egoId));
      if r.Err? { return; }
      r := RunChunked(CircleInserts(circles, egoId));
      o := Continue(o, CircleInserts(circles, egoId));
      if r.Err? { return; }
      r := RunChunked(GroupInserts(groupOrder));
    }

    /** `group_map`, the feature rows built from it, and their chunks. */
    method WriteFeatures(ghost setup: Outcome, features: seq<(string, string)>) returns (r: Result<(), IngestError>)
      requires setup.result.Ok? && db == setup.db
      modifies this
      ensures db == FeatureSpec(setup, features).db && r == FeatureSpec(setup, features).result
    {
      var groupMap := GroupMap(db.featureGroup);
      var featureRows := FeatureRows(features, groupMap);
      if featureRows.Err? {
        return Err(featureRows.error);
      }
      r := RunChunked(featureRows.value);
    }

    /** `feature_id_map`, the `node_feature` rows resolved through it, and their chunks. */
    method WriteTags(ghost featured: Outcome, nodeFeatures: Dict<string, seq<string>>, egoFeatures: Dict<string, seq<string>>)
      returns (r: Result<(), IngestError>)
      requires featured.result.Ok? && db == featured.db
      modifies this
      ensures db == TagSpec(featured, nodeFeatures, egoFeatures).db && r == TagSpec(featured, nodeFeatures, egoFeatures).result
    {
      var featureIdMap := FeatureIdMap(db.featureName);
      var nodeFeatureRows := BuildNodeFeatureRows(nodeFeatures, egoFeatures, featureIdMap);
      if nodeFeatureRows.Err? {
        return Err(nodeFeatureRows.error);
      }
      r := RunChunked(nodeFeatureRows.value);
    }

    /**
      `ingestEgoNetwork(ego_id, edges, features, node_features, ego_features, circles)`;
      `groupOrder` is the order in which the set of group names is iterated.
     */
    method IngestEgoNetwork(egoId: string, edges: seq<(string, string)>, features: seq<(string, string)>,
                            nodeFeatures: Dict<string, seq<string>>, egoFeatures: Dict<string, seq<string>>,
                            circles: Dict<string, seq<string>>, groupOrder: seq<string>)
      returns (r: Result<(), IngestError>)
      modifies this
      ensures db == IngestSpec(old(db), egoId, edges, features, nodeFeatures, egoFeatures, circles, groupOrder).db
      ensures r == IngestSpec(old(db), egoId, edges, features, nodeFeatures, egoFeatures, circles, groupOrder).result
    {
      ghost var setup := SetupSpec(db, egoId, nodeFeatures, circles, groupOrder);
      r := Setup(egoId, nodeFeatures, circles, groupOrder);
      if r.Err? { return; }
      ghost var featured := FeatureSpec(setup, features);
      r := WriteFeatures(setup, features);
      if r.Err? { return; }
      ghost var tagged := TagSpec(featured, nodeFeatures, egoFeatures);
      r := WriteTags(featured, nodeFeatures, egoFeatures);
      if r.Err? { return; }
      r := RunChunked(EdgeInserts(edges, egoId));
    }
  }
}
