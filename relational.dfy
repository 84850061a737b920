/**
  The PostgreSQL ingestor: the tables its schema declares, each `INSERT .. ON CONFLICT
  DO NOTHING` as a state change that ignores key conflicts and fails on a foreign-key
  violation, one transaction per chunk, and the read-back maps that turn feature names
  into surrogate ids.
 */
module RelationalIngest {
  import opened Wrappers
  import opened Chunking

  // ---------------------------------------------------------------- tables

  datatype NodeType = EgoType | UserType

  datatype GroupRow = GroupRow(groupId: int, groupName: string)
  datatype FeatureRow = FeatureRow(featureId: int, name: string, groupId: int)

  /**
    One row per primary key: `node`, `user_node` and `circle` map their key to the other
    column. `feature_group` and `feature_name` keep their rows in insertion order beside
    the next value of their `serial` sequence.
   */
  datatype Tables = Tables(
    node: map<string, NodeType>,
    ego: set<string>,
    userNode: map<string, string>,
    circle: map<string, string>,
    circleMember: set<(string, string)>,
    featureGroup: seq<GroupRow>,
    groupSerial: int,
    featureName: seq<FeatureRow>,
    featureSerial: int,
    nodeFeature: set<(string, int)>,
    edge: set<(string, string, string)>)

  function GroupIds(rows: seq<GroupRow>): set<int> {
    set r | r in rows :: r.groupId
  }

  function FeatureIds(rows: seq<FeatureRow>): set<int> {
    set r | r in rows :: r.featureId
  }

  /** The `unique (group_id, name)` key of `feature_name`. */
  function FeatureKey(r: FeatureRow): (int, string) {
    (r.groupId, r.name)
  }

  function FeatureKeys(rows: seq<FeatureRow>): set<(int, string)> {
    set r | r in rows :: FeatureKey(r)
  }

  function GroupNamesIn(rows: seq<GroupRow>): set<string> {
    set r | r in rows :: r.groupName
  }

  /** Every foreign key resolves, serial keys are distinct and below their sequence, and `(group_id, name)` is unique. */
  predicate Consistent(db: Tables) {
    NodesConsistent(db) && GroupsConsistent(db) && FeaturesConsistent(db) && LinksConsistent(db)
  }

  /** `ego`, `user_node`, `circle` and `circle_member` reference existing rows. */
  predicate NodesConsistent(db: Tables) {
    (forall e | e in db.ego :: e in db.node)
    && (forall u | u in db.userNode :: u in db.node && db.userNode[u] in db.ego)
    && (forall c | c in db.circle :: db.circle[c] in db.ego)
    && (forall m | m in db.circleMember :: m.0 in db.circle && m.1 in db.node)
  }

  /** `group_id` is a key drawn from its sequence. */
  predicate GroupsConsistent(db: Tables) {
    (forall i | 0 <= i < |db.featureGroup| :: db.featureGroup[i].groupId < db.groupSerial)
    && (forall i, j | 0 <= i < j < |db.featureGroup| :: db.featureGroup[i].groupId != db.featureGroup[j].groupId)
  }

  /** `feature_id` is a key drawn from its sequence, `(group_id, name)` is unique and `group_id` exists. */
  predicate FeaturesConsistent(db: Tables) {
    (forall i | 0 <= i < |db.featureName| ::
       db.featureName[i].featureId < db.featureSerial && db.featureName[i].groupId in GroupIds(db.featureGroup))
    && (forall i, j | 0 <= i < j < |db.featureName| ::
          db.featureName[i].featureId != db.featureName[j].featureId
          && FeatureKey(db.featureName[i]) != FeatureKey(db.featureName[j]))
  }

  /** `node_feature` and `edge` reference existing rows. */
  predicate LinksConsistent(db: Tables) {
    (forall p | p in db.nodeFeature :: p.0 in db.node && p.1 in FeatureIds(db.featureName))
    && (forall t | t in db.edge :: t.0 in db.node && t.1 in db.node && t.2 in db.ego)
  }

  /** Nothing is deleted or altered: every table only gains rows and the sequences only advance. */
  predicate Grows(db: Tables, db': Tables) {
    db.node.Keys <= db'.node.Keys && (forall k | k in db.node :: db'.node[k] == db.node[k])
    && db.ego <= db'.ego
    && db.userNode.Keys <= db'.userNode.Keys && (forall k | k in db.userNode :: db'.userNode[k] == db.userNode[k])
    && db.circle.Keys <= db'.circle.Keys && (forall k | k in db.circle :: db'.circle[k] == db.circle[k])
    && db.circleMember <= db'.circleMember
    && db.featureGroup <= db'.featureGroup && db.groupSerial <= db'.groupSerial
    && db.featureName <= db'.featureName && db.featureSerial <= db'.featureSerial
    && db.nodeFeature <= db'.nodeFeature
    && db.edge <= db'.edge
  }

  lemma GrowsTrans(a: Tables, b: Tables, c: Tables)
    requires Grows(a, b) && Grows(b, c)
    ensures Grows(a, c)
  {
  }

  // ---------------------------------------------------------------- statements

  /** One row of an `insert .. on conflict do nothing`. */
  datatype Insert =
    | InsertNode(nodeId: string, nodeType: NodeType)
    | InsertEgo(egoNode: string)
    | InsertUserNode(userId: string, userEgo: string)
    | InsertCircle(circleId: string, circleEgo: string)
    | InsertGroup(groupName: string)
    | InsertFeature(featureGroup: int, featureName: string)
    | InsertNodeFeature(taggedNode: string, taggedFeature: int)
    | InsertEdge(src: string, dst: string, edgeEgo: string)

  /** `ON CONFLICT DO NOTHING` skips key conflicts but not foreign-key violations. */
  datatype SqlError = ForeignKeyViolation(statement: Insert)

  /**
    One row. A row whose key is taken is skipped; otherwise a missing referenced row is
    an error. The serial columns draw the next sequence value whether or not the row
    is kept.
   */
  function Exec(db: Tables, s: Insert): (r: Result<Tables, SqlError>)
    ensures r.Err? ==> r.error == ForeignKeyViolation(s)
    ensures r.Ok? ==> Grows(db, r.value)
  {
    match s
    case InsertNode(id, t) =>
      Ok(if id in db.node then db else db.(node := db.node[id := t]))
    case InsertEgo(id) =>
      if id in db.ego then Ok(db)
      else if id !in db.node then Err(ForeignKeyViolation(s))
      else Ok(db.(ego := db.ego + {id}))
    case InsertUserNode(u, e) =>
      if u in db.userNode then Ok(db)
      else if u !in db.node || e !in db.ego then Err(ForeignKeyViolation(s))
      else Ok(db.(userNode := db.userNode[u := e]))
    case InsertCircle(c, e) =>
      if c in db.circle then Ok(db)
      else if e !in db.ego then Err(ForeignKeyViolation(s))
      else Ok(db.(circle := db.circle[c := e]))
    case InsertGroup(name) =>
      var id := db.groupSerial;
      if id in GroupIds(db.featureGroup) then Ok(db.(groupSerial := id + 1))
      else Ok(db.(groupSerial := id + 1, featureGroup := db.featureGroup + [GroupRow(id, name)]))
    case InsertFeature(gid, name) =>
      var id := db.featureSerial;
      if id in FeatureIds(db.featureName) || (gid, name) in FeatureKeys(db.featureName) then
        Ok(db.(featureSerial := id + 1))
      else if gid !in GroupIds(db.featureGroup) then Err(ForeignKeyViolation(s))
      else Ok(db.(featureSerial := id + 1, featureName := db.featureName + [FeatureRow(id, name, gid)]))
    case InsertNodeFeature(n, f) =>
      if (n, f) in db.nodeFeature then Ok(db)
      else if n !in db.node || f !in FeatureIds(db.featureName) then Err(ForeignKeyViolation(s))
      else Ok(db.(nodeFeature := db.nodeFeature + {(n, f)}))
    case InsertEdge(a, b, e) =>
      if (a, b, e) in db.edge then Ok(db)
      else if a !in db.node || b !in db.node || e !in db.ego then Err(ForeignKeyViolation(s))
      else Ok(db.(edge := db.edge + {(a, b, e)}))
  }

  /** The constraints hold after every row that is accepted. */
  lemma ExecConsistent(db: Tables, s: Insert)
    requires Consistent(db) && Exec(db, s).Ok?
    ensures Consistent(Exec(db, s).value)
  {
    match s
    case InsertGroup(name) => GroupInsertConsistent(db, name);
    case InsertFeature(gid, name) => FeatureInsertConsistent(db, gid, name);
    case InsertNode(_, _) => NodeInsertConsistent(db, s);
    case InsertEgo(_) => EgoInsertConsistent(db, s);
    case InsertUserNode(_, _) => UserNodeInsertConsistent(db, s);
    case InsertCircle(_, _) => CircleInsertConsistent(db, s);
    case InsertNodeFeature(_, _) => NodeFeatureInsertConsistent(db, s);
    case InsertEdge(_, _, _) => EdgeInsertConsistent(db, s);
  }

  lemma NodeInsertConsistent(db: Tables, s: Insert)
    requires Consistent(db) && s.InsertNode? && Exec(db, s).Ok?
    ensures Consistent(Exec(db, s).value)
  {
  }

  lemma EgoInsertConsistent(db: Tables, s: Insert)
    requires Consistent(db) && s.InsertEgo? && Exec(db, s).Ok?
    ensures Consistent(Exec(db, s).value)
  {
  }

  lemma UserNodeInsertConsistent(db: Tables, s: Insert)
    requires Consistent(db) && s.InsertUserNode? && Exec(db, s).Ok?
    ensures Consistent(Exec(db, s).value)
  {
  }

  lemma CircleInsertConsistent(db: Tables, s: Insert)
    requires Consistent(db) && s.InsertCircle? && Exec(db, s).Ok?
    ensures Consistent(Exec(db, s).value)
  {
  }

  lemma NodeFeatureInsertConsistent(db: Tables, s: Insert)
    requires Consistent(db) && s.InsertNodeFeature? && Exec(db, s).Ok?
    ensures Consistent(Exec(db, s).value)
  {
  }

  lemma EdgeInsertConsistent(db: Tables, s: Insert)
    requires Consistent(db) && s.InsertEdge? && Exec(db, s).Ok?
    ensures Consistent(Exec(db, s).value)
  {
  }

  lemma GroupIdsSnoc(rows: seq<GroupRow>, r: GroupRow)
    ensures GroupIds(rows + [r]) == GroupIds(rows) + {r.groupId}
  {
    forall g | g in GroupIds(rows) ensures g in GroupIds(rows + [r]) {
      var x :| x in rows && x.groupId == g;
      assert x in rows + [r];
    }
    assert r in rows + [r];
  }

  lemma FeatureIdsSnoc(rows: seq<FeatureRow>, r: FeatureRow)
    ensures FeatureIds(rows + [r]) == FeatureIds(rows) + {r.featureId}
  {
    forall f | f in FeatureIds(rows) ensures f in FeatureIds(rows + [r]) {
      var x :| x in rows && x.featureId == f;
      assert x in rows + [r];
    }
    assert r in rows + [r];
  }

  lemma GroupInsertConsistent(db: Tables, name: string)
    requires Consistent(db)
    ensures Consistent(Exec(db, InsertGroup(name)).value)
  {
    var id := db.groupSerial;
    var db' := Exec(db, InsertGroup(name)).value;
    if id !in GroupIds(db.featureGroup) {
      var row := GroupRow(id, name);
      var rows := db.featureGroup + [row];
      assert db'.featureGroup == rows;
      GroupIdsSnoc(db.featureGroup, row);
      forall i | 0 <= i < |db.featureGroup| ensures rows[i].groupId != id {
        assert rows[i] == db.featureGroup[i];
        assert rows[i] in db.featureGroup;
      }
      assert GroupsConsistent(db');
      assert FeaturesConsistent(db');
    }
  }

  lemma FeatureInsertConsistent(db: Tables, gid: int, name: string)
    requires Consistent(db) && Exec(db, InsertFeature(gid, name)).Ok?
    ensures Consistent(Exec(db, InsertFeature(gid, name)).value)
  {
    var id := db.featureSerial;
    if !(id in FeatureIds(db.featureName) || (gid, name) in FeatureKeys(db.featureName)) {
      var row := FeatureRow(id, name, gid);
      var db' := db.(featureSerial := id + 1, featureName := db.featureName + [row]);
      assert Exec(db, InsertFeature(gid, name)).value == db';
      FeatureSnocConsistent(db, row);
      FeatureIdsSnoc(db.featureName, row);
      assert LinksConsistent(db');
    }
  }

  /** A new `feature_name` row with a fresh id and a fresh key keeps the table's constraints. */
  lemma FeatureSnocConsistent(db: Tables, row: FeatureRow)
    requires FeaturesConsistent(db) && row.featureId == db.featureSerial && row.groupId in GroupIds(db.featureGroup)
    requires FeatureKey(row) !in FeatureKeys(db.featureName)
    ensures FeaturesConsistent(db.(featureSerial := db.featureSerial + 1, featureName := db.featureName + [row]))
  {
    var rows := db.featureName + [row];
    forall i | 0 <= i < |db.featureName|
      ensures rows[i].featureId != row.featureId && FeatureKey(rows[i]) != FeatureKey(row)
    {
      assert rows[i] == db.featureName[i];
      assert rows[i] in db.featureName;
    }
  }

  /** The rows of one `executemany`, in order; the first error aborts the transaction. */
  function ExecMany(db: Tables, stmts: seq<Insert>): (r: Result<Tables, SqlError>)
    ensures r.Ok? ==> Grows(db, r.value)
    ensures r.Err? ==> r.error.statement in stmts
    decreases |stmts|
  {
    if stmts == [] then Ok(db)
    else
      match Exec(db, stmts[0])
      case Err(e) => Err(e)
      case Ok(db') =>
        var r := ExecMany(db', stmts[1..]);
        if r.Ok? then GrowsTrans(db, db', r.value); r else r
  }

  lemma {:induction false} ExecManyConsistent(db: Tables, stmts: seq<Insert>)
    requires Consistent(db) && ExecMany(db, stmts).Ok?
    ensures Consistent(ExecMany(db, stmts).value)
    decreases |stmts|
  {
    if stmts != [] {
      ExecConsistent(db, stmts[0]);
      ExecManyConsistent(Exec(db, stmts[0]).value, stmts[1..]);
    }
  }

  /** A batch whose first row is accepted goes on with the rest from the tables it left. */
  lemma ExecManyStep(db: Tables, stmts: seq<Insert>)
    requires stmts != [] && Exec(db, stmts[0]).Ok?
    ensures ExecMany(db, stmts) == ExecMany(Exec(db, stmts[0]).value, stmts[1..])
  {
  }

  /** Running `a + b` is running `a`, then `b` on what `a` left, unless `a` fails. */
  lemma {:induction false} ExecManyConcat(db: Tables, a: seq<Insert>, b: seq<Insert>)
    ensures ExecMany(db, a + b) == match ExecMany(db, a) case Err(e) => Err(e) case Ok(d) => ExecMany(d, b)
    decreases |a|
  {
    if a == [] {
      assert a + b == b;
    } else {
      assert (a + b)[0] == a[0] && (a + b)[1..] == a[1..] + b;
      if Exec(db, a[0]).Ok? {
        ExecManyConcat(Exec(db, a[0]).value, a[1..], b);
      }
    }
  }

  /** The key of a statement's row is present: the statement has nothing left to add. */
  predicate Inserted(db: Tables, s: Insert) {
    match s
    case InsertNode(id, _) => id in db.node
    case InsertEgo(id) => id in db.ego
    case InsertUserNode(u, _) => u in db.userNode
    case InsertCircle(c, _) => c in db.circle
    case InsertGroup(name) => name in GroupNamesIn(db.featureGroup)
    case InsertFeature(gid, name) => (gid, name) in FeatureKeys(db.featureName)
    case InsertNodeFeature(n, f) => (n, f) in db.nodeFeature
    case InsertEdge(a, b, e) => (a, b, e) in db.edge
  }

  lemma InsertedGrows(db: Tables, d: Tables, s: Insert)
    requires Grows(db, d) && Inserted(db, s)
    ensures Inserted(d, s)
  {
    match s
    case InsertGroup(name) =>
      var r :| r in db.featureGroup && r.groupName == name;
      assert r in d.featureGroup by {
        var i :| 0 <= i < |db.featureGroup| && db.featureGroup[i] == r;
        assert d.featureGroup[i] == r;
      }
    case InsertFeature(gid, name) =>
      var r :| r in db.featureName && FeatureKey(r) == (gid, name);
      assert r in d.featureName by {
        var i :| 0 <= i < |db.featureName| && db.featureName[i] == r;
        assert d.featureName[i] == r;
      }
    case _ =>
  }

  /** The next value of each sequence is not yet a key. */
  lemma SerialsFresh(db: Tables)
    requires Consistent(db)
    ensures db.groupSerial !in GroupIds(db.featureGroup) && db.featureSerial !in FeatureIds(db.featureName)
  {
    forall r | r in db.featureGroup ensures r.groupId != db.groupSerial {
      var i :| 0 <= i < |db.featureGroup| && db.featureGroup[i] == r;
    }
    forall r | r in db.featureName ensures r.featureId != db.featureSerial {
      var i :| 0 <= i < |db.featureName| && db.featureName[i] == r;
    }
  }

  /** An accepted row is present afterwards, whether it was added now or was already there. */
  lemma ExecInserted(db: Tables, s: Insert)
    requires Consistent(db) && Exec(db, s).Ok?
    ensures Inserted(Exec(db, s).value, s)
  {
    match s
    case InsertGroup(name) =>
      var id := db.groupSerial;
      SerialsFresh(db);
      assert GroupRow(id, name) in Exec(db, s).value.featureGroup;
    case InsertFeature(gid, name) =>
      var id := db.featureSerial;
      if (gid, name) !in FeatureKeys(db.featureName) {
        SerialsFresh(db);
        assert FeatureRow(id, name, gid) in Exec(db, s).value.featureName;
      }
    case _ =>
  }

  lemma FeatureIdsGrow(rows: seq<FeatureRow>, rows': seq<FeatureRow>)
    requires rows <= rows'
    ensures FeatureIds(rows) <= FeatureIds(rows') && FeatureKeys(rows) <= FeatureKeys(rows')
  {
    forall r | r in rows ensures r in rows' {
      var i :| 0 <= i < |rows| && rows[i] == r;
      assert rows'[i] == r;
    }
  }

  lemma GroupIdsGrow(rows: seq<GroupRow>, rows': seq<GroupRow>)
    requires rows <= rows'
    ensures GroupIds(rows) <= GroupIds(rows')
  {
    forall r | r in rows ensures r in rows' {
      var i :| 0 <= i < |rows| && rows[i] == r;
      assert rows'[i] == r;
    }
  }

  /** A row accepted in a valid state is still accepted once the tables have grown. */
  lemma ExecOkGrows(db: Tables, d: Tables, s: Insert)
    requires Consistent(db) && Grows(db, d) && Exec(db, s).Ok?
    ensures Exec(d, s).Ok?
  {
    match s
    case InsertFeature(gid, name) =>
      FeatureIdsGrow(db.featureName, d.featureName);
      GroupIdsGrow(db.featureGroup, d.featureGroup);
      if (gid, name) !in FeatureKeys(db.featureName) {
        SerialsFresh(db);
      }
    case InsertNodeFeature(_, _) =>
      FeatureIdsGrow(db.featureName, d.featureName);
    case _ =>
  }

  /**
    A batch whose every row would be accepted on its own in a valid state is accepted
    as a whole, and each of its rows is present afterwards.
   */
  lemma {:induction false} ExecManyAllOk(db: Tables, stmts: seq<Insert>)
    requires Consistent(db) && forall i | 0 <= i < |stmts| :: Exec(db, stmts[i]).Ok?
    ensures ExecMany(db, stmts).Ok?
    ensures forall i | 0 <= i < |stmts| :: Inserted(ExecMany(db, stmts).value, stmts[i])
    decreases |stmts|
  {
    if stmts != [] {
      var d := Exec(db, stmts[0]).value;
      ExecConsistent(db, stmts[0]);
      ExecInserted(db, stmts[0]);
      forall i | 0 <= i < |stmts[1..]| ensures Exec(d, stmts[1..][i]).Ok? {
        ExecOkGrows(db, d, stmts[1 + i]);
      }
      ExecManyAllOk(d, stmts[1..]);
      var last := ExecMany(db, stmts).value;
      forall i | 0 <= i < |stmts| ensures Inserted(last, stmts[i]) {
        if i == 0 {
          InsertedGrows(d, last, stmts[0]);
        } else {
          assert stmts[i] == stmts[1..][i - 1];
        }
      }
    }
  }

  /** A batch fails on a row that a grown state rejects. */
  lemma {:induction false} ExecManyFails(db: Tables, stmts: seq<Insert>)
    requires ExecMany(db, stmts).Err?
    ensures exists d :: Grows(db, d) && Exec(d, ExecMany(db, stmts).error.statement).Err?
    decreases |stmts|
  {
    if Exec(db, stmts[0]).Err? {
      assert Grows(db, db);
    } else {
      var d := Exec(db, stmts[0]).value;
      ExecManyFails(d, stmts[1..]);
      var d' :| Grows(d, d') && Exec(d', ExecMany(d, stmts[1..]).error.statement).Err?;
      GrowsTrans(db, d, d');
    }
  }

  /** Every table holds the same rows; only the sequences may have advanced. */
  predicate SameRows(db: Tables, d: Tables) {
    d == db.(groupSerial := d.groupSerial, featureSerial := d.featureSerial)
  }

  /**
    Replaying a row that is present changes no table. `feature_group` is the exception:
    its only key is the serial id, so a replayed group is a new row (`GroupReplayAdds`).
   */
  lemma ExecReplay(db: Tables, s: Insert)
    requires Inserted(db, s) && !s.InsertGroup?
    ensures Exec(db, s).Ok? && SameRows(db, Exec(db, s).value)
  {
  }

  /** On a valid database every `feature_group` row is added, even for a name already stored. */
  lemma GroupReplayAdds(db: Tables, name: string)
    requires Consistent(db)
    ensures Exec(db, InsertGroup(name)).Ok?
    ensures Exec(db, InsertGroup(name)).value.featureGroup == db.featureGroup + [GroupRow(db.groupSerial, name)]
  {
    SerialsFresh(db);
  }

  /** A batch of present rows, none of them a group, changes no table. */
  lemma {:induction false} ExecManyReplay(db: Tables, stmts: seq<Insert>)
    requires forall i | 0 <= i < |stmts| :: Inserted(db, stmts[i]) && !stmts[i].InsertGroup?
    ensures ExecMany(db, stmts).Ok? && SameRows(db, ExecMany(db, stmts).value)
    decreases |stmts|
  {
    if stmts != [] {
      ExecReplay(db, stmts[0]);
      var d := Exec(db, stmts[0]).value;
      forall i | 0 <= i < |stmts[1..]| ensures Inserted(d, stmts[1..][i]) && !stmts[1..][i].InsertGroup? {
        assert stmts[1..][i] == stmts[i + 1];
      }
      ExecManyReplay(d, stmts[1..]);
    }
  }

  /** The statement claims a circle for `egoId`, if it claims one at all. */
  predicate ClaimsFor(s: Insert, egoId: string) {
    s.InsertCircle? ==> s.circleEgo == egoId
  }

  /** The tables grew, `circle_member` is untouched and every circle added since `db` belongs to `egoId`. */
  predicate OwnedSince(db: Tables, d: Tables, egoId: string) {
    Grows(db, d)
    && d.circleMember == db.circleMember
    && forall c | c in d.circle && c !in db.circle :: d.circle[c] == egoId
  }

  lemma OwnedTrans(a: Tables, b: Tables, c: Tables, egoId: string)
    requires OwnedSince(a, b, egoId) && OwnedSince(b, c, egoId)
    ensures OwnedSince(a, c, egoId)
  {
    GrowsTrans(a, b, c);
  }

  lemma ExecOwned(db: Tables, s: Insert, egoId: string)
    requires Exec(db, s).Ok? && ClaimsFor(s, egoId)
    ensures OwnedSince(db, Exec(db, s).value, egoId)
  {
  }

  lemma {:induction false} ExecManyOwned(db: Tables, stmts: seq<Insert>, egoId: string)
    requires ExecMany(db, stmts).Ok? && forall i | 0 <= i < |stmts| :: ClaimsFor(stmts[i], egoId)
    ensures OwnedSince(db, ExecMany(db, stmts).value, egoId)
    decreases |stmts|
  {
    if stmts == [] {
      assert Grows(db, db);
    } else {
      var d := Exec(db, stmts[0]).value;
      ExecOwned(db, stmts[0], egoId);
      assert forall i | 0 <= i < |stmts[1..]| :: stmts[1..][i] == stmts[i + 1];
      ExecManyOwned(d, stmts[1..], egoId);
      OwnedTrans(db, d, ExecMany(db, stmts).value, egoId);
    }
  }

  // ---------------------------------------------------------------- transactions

  /** What Python raises out of `ingestEgoNetwork`. */
  datatype IngestError =
    | SqlFailure(sql: SqlError)
    | MissingGroup(group: string)
    | NoFeatureNamed(name: string)

  /** The committed tables and how the ingest ended. */
  datatype Outcome = Outcome(db: Tables, result: Result<(), IngestError>)

  /** One `executemany` and `commit` per chunk; a failing chunk is rolled back and ends the run. */
  function RunChunks(db: Tables, chunks: seq<seq<Insert>>): Outcome
    decreases |chunks|
  {
    if chunks == [] then Outcome(db, Ok(()))
    else
      match ExecMany(db, chunks[0])
      case Err(e) => Outcome(db, Err(SqlFailure(e)))
      case Ok(db') => RunChunks(db', chunks[1..])
  }

  /** `for chunk in split_to_chunks(rows): cur.executemany(..., chunk); conn.commit()`. */
  function Chunked(db: Tables, stmts: seq<Insert>): Outcome {
    RunChunks(db, Chunks(stmts, DefaultChunkSize))
  }

  /**
    Chunking shows only when a row fails: when every row is accepted the committed tables
    are those of a single transaction; when one fails its error is the one a single
    transaction would raise, and the tables committed before it are kept.
   */
  lemma {:induction false} RunChunksAsOne(db: Tables, chunks: seq<seq<Insert>>)
    ensures ExecMany(db, Flatten(chunks)).Ok? ==> RunChunks(db, chunks) == Outcome(ExecMany(db, Flatten(chunks)).value, Ok(()))
    ensures ExecMany(db, Flatten(chunks)).Err? ==>
      RunChunks(db, chunks).result == Err(SqlFailure(ExecMany(db, Flatten(chunks)).error))
      && Grows(db, RunChunks(db, chunks).db)
    decreases |chunks|
  {
    if chunks != [] {
      ExecManyConcat(db, chunks[0], Flatten(chunks[1..]));
      if ExecMany(db, chunks[0]).Ok? {
        RunChunksAsOne(ExecMany(db, chunks[0]).value, chunks[1..]);
        if ExecMany(db, Flatten(chunks)).Err? {
          GrowsTrans(db, ExecMany(db, chunks[0]).value, RunChunks(db, chunks).db);
        }
      }
    }
  }

  lemma ChunkedAsOne(db: Tables, stmts: seq<Insert>)
    ensures ExecMany(db, stmts).Ok? ==> Chunked(db, stmts) == Outcome(ExecMany(db, stmts).value, Ok(()))
    ensures ExecMany(db, stmts).Err? ==>
      Chunked(db, stmts).result == Err(SqlFailure(ExecMany(db, stmts).error)) && Grows(db, Chunked(db, stmts).db)
  {
    ChunksMeaning(stmts, DefaultChunkSize);
    RunChunksAsOne(db, Chunks(stmts, DefaultChunkSize));
  }

  /**
    When a row fails, the chunks before the failing chunk stay committed: the tables are
    those a single transaction over those chunks leaves, and the next chunk is the one
    that fails.
   */
  lemma {:induction false} RunChunksKeepsPrefix(db: Tables, chunks: seq<seq<Insert>>)
    ensures ExecMany(db, Flatten(chunks)).Err? ==>
      exists k | 0 <= k < |chunks| :: (
        && ExecMany(db, Flatten(chunks[..k])).Ok?
        && RunChunks(db, chunks).db == ExecMany(db, Flatten(chunks[..k])).value
        && ExecMany(db, Flatten(chunks[..k + 1])).Err?)
    decreases |chunks|
  {
    if chunks != [] && ExecMany(db, Flatten(chunks)).Err? {
      ExecManyConcat(db, chunks[0], Flatten(chunks[1..]));
      FlattenTakeCons(chunks, 0);
      assert chunks[..0] == [] && chunks[1..][..0] == [];
      assert Flatten(chunks[..1]) == chunks[0];
      if ExecMany(db, chunks[0]).Err? {
        assert ExecMany(db, Flatten(chunks[..0])) == Ok(db);
      } else {
        var d := ExecMany(db, chunks[0]).value;
        var tail := chunks[1..];
        RunChunksKeepsPrefix(d, tail);
        var k :| 0 <= k < |tail|
          && ExecMany(d, Flatten(tail[..k])).Ok?
          && RunChunks(d, tail).db == ExecMany(d, Flatten(tail[..k])).value
          && ExecMany(d, Flatten(tail[..k + 1])).Err?;
        FlattenTakeCons(chunks, k);
        FlattenTakeCons(chunks, k + 1);
        ExecManyConcat(db, chunks[0], Flatten(tail[..k]));
        ExecManyConcat(db, chunks[0], Flatten(tail[..k + 1]));
        assert 0 <= k + 1 < |chunks|;
      }
    }
  }

  /**
    The same for `Chunked`: the committed tables are those of a single transaction over
    the first `k * DefaultChunkSize` rows, and the chunk of rows after them fails.
   */
  lemma ChunkedKeepsPrefix(db: Tables, stmts: seq<Insert>)
    ensures ExecMany(db, stmts).Err? ==>
      exists k: nat | k * DefaultChunkSize < |stmts| :: (
        && ExecMany(db, stmts[..k * DefaultChunkSize]).Ok?
        && Chunked(db, stmts).db == ExecMany(db, stmts[..k * DefaultChunkSize]).value
        && ExecMany(db, stmts[..Min((k + 1) * DefaultChunkSize, |stmts|)]).Err?)
  {
    if ExecMany(db, stmts).Err? {
      var chunks := Chunks(stmts, DefaultChunkSize);
      ChunksMeaning(stmts, DefaultChunkSize);
      RunChunksKeepsPrefix(db, chunks);
      var k :| 0 <= k < |chunks|
        && ExecMany(db, Flatten(chunks[..k])).Ok?
        && RunChunks(db, chunks).db == ExecMany(db, Flatten(chunks[..k])).value
        && ExecMany(db, Flatten(chunks[..k + 1])).Err?;
      ChunkAt(stmts, DefaultChunkSize, k);
    }
  }

  /** A chunked step of present rows, none of them a group, commits and changes no table. */
  lemma ChunkedReplay(db: Tables, stmts: seq<Insert>)
    requires forall i | 0 <= i < |stmts| :: Inserted(db, stmts[i]) && !stmts[i].InsertGroup?
    ensures Chunked(db, stmts).result.Ok? && SameRows(db, Chunked(db, stmts).db)
  {
    ExecManyReplay(db, stmts);
    ChunkedAsOne(db, stmts);
  }

  /** A chunked run that claims circles only for `egoId` commits nothing else. */
  lemma {:induction false} RunChunksOwned(db: Tables, chunks: seq<seq<Insert>>, egoId: string)
    requires forall k, i | 0 <= k < |chunks| && 0 <= i < |chunks[k]| :: ClaimsFor(chunks[k][i], egoId)
    ensures OwnedSince(db, RunChunks(db, chunks).db, egoId)
    decreases |chunks|
  {
    if chunks != [] && ExecMany(db, chunks[0]).Ok? {
      var d := ExecMany(db, chunks[0]).value;
      ExecManyOwned(db, chunks[0], egoId);
      assert forall k | 0 <= k < |chunks[1..]| :: chunks[1..][k] == chunks[k + 1];
      RunChunksOwned(d, chunks[1..], egoId);
      OwnedTrans(db, d, RunChunks(db, chunks).db, egoId);
    } else {
      assert Grows(db, db);
    }
  }

  lemma ChunkedOwned(db: Tables, stmts: seq<Insert>, egoId: string)
    requires forall i | 0 <= i < |stmts| :: ClaimsFor(stmts[i], egoId)
    ensures OwnedSince(db, Chunked(db, stmts).db, egoId)
  {
    var chunks := Chunks(stmts, DefaultChunkSize);
    forall k, i | 0 <= k < |chunks| && 0 <= i < |chunks[k]| ensures ClaimsFor(chunks[k][i], egoId) {
      ChunkElements(stmts, DefaultChunkSize, k, chunks[k][i]);
    }
    RunChunksOwned(db, chunks, egoId);
  }

  /** Every committed state of a chunked run satisfies the constraints. */
  lemma {:induction false} RunChunksConsistent(db: Tables, chunks: seq<seq<Insert>>)
    requires Consistent(db)
    ensures Consistent(RunChunks(db, chunks).db)
    decreases |chunks|
  {
    if chunks != [] && ExecMany(db, chunks[0]).Ok? {
      ExecManyConsistent(db, chunks[0]);
      RunChunksConsistent(ExecMany(db, chunks[0]).value, chunks[1..]);
    }
  }
}
