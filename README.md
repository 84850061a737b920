# Ego-network loader: a Dafny model

This project models the core of a bulk loader for SNAP-style ego networks. An ego
network is a set of files for one "ego" user. `<id>.edges` lists who follows whom.
`<id>.featnames` is the feature vocabulary. `<id>.feat` and `<id>.egofeat` hold the
feature bit vectors. `<id>.circles` holds the ego's circles. The loader parses these
files (`parser.py`) and writes the result either to a property graph in Neo4J or to a
PostgreSQL schema (`ingestor.py`). Both ingestors write in chunks of at most 50 000
records (`split_to_chunks`).

The model has eight modules, one file each.

- `Wrappers` (`wrappers.dfy`): `Option` and `Result`.
- `PyDict` (`pydict.dfy`): a Python `dict` as a duplicate-free, insertion-ordered list of
  pairs. It covers `d[k]`, `d[k] = v`, `defaultdict(list)` appends, `dict(pairs)` (last
  pair wins) and `items()` flattening.
- `Tokens` (`tokens.dfy`): `str.isspace`, `strip`/`rstrip`, `split()`, `split(" ", 1)`,
  `int()` on decimal text and `str()` on naturals.
- `Parser` (`parser.py`): each parser works on the file as a sequence of lines. Each is a
  `method` with the source's loop over the lines, proved equal to a specification
  function. A malformed line becomes a `ParseError` naming the line and the exception
  Python raises.
- `Chunking` (`ingestor.py:1-3`): the generator as a recursive function and as a loop.
- `GraphIngest` (the Neo4J ingestor): the record lists, and every `UNWIND … MERGE/MATCH`
  statement as a sequence of row operations on a graph of labelled nodes and
  relationships. The class `Neo4JIngestor` holds the graph and writes chunk by chunk.
- `RelationalIngest` (the PostgreSQL schema): the tables the schema creates, one
  `insert … on conflict do nothing` row as a state change, `executemany`, and one
  transaction per chunk.
- `PsqlIngest` (the PostgreSQL ingestor): the rows of each step, the maps read back
  from `feature_group` and `feature_name`, the resolution of feature names to ids, and
  the whole ingest. The class `PSQLIngestor` holds the database and runs the steps.

What is proved, in the system's terms:

- Parsing. Each parser yields one item per line in line order, or stops at the first bad
  line with that line's error.
  - An edge line must have exactly two fields, so a blank line is an error.
  - A vocabulary line is split once, at its first space. The name is kept whole, spaces
    and `:` included.
  - In a feature line only the token `"1"` selects a name, and only a `"1"` at an index
    missing from the vocabulary is an error.
  - Circle lines that repeat a name concatenate their members, duplicates included. A
    circle with no members gets no key.
- Chunking. The chunks concatenate back to the input. Each chunk holds 1 to `size`
  elements, and only the last may be short.
- Neo4J.
  - `ingestEgoNetwork` fails exactly when `ego_features` lacks the ego, and then
    before any write.
  - The write order creates every node before any row that MATCHes it.
  - The final graph therefore has a closed form: the old graph plus every merged node,
    plus every relationship whose endpoints exist.
  - Re-ingesting leaves the graph as it was.
  - The iteration order of the feature-group set leaves no trace in the graph.
  - A FOLLOWS relationship between users arises only from an edge whose two endpoints
    are users.
- PostgreSQL.
  - Every accepted row keeps each primary-key, foreign-key and unique constraint.
  - Chunking is visible only on failure: the chunks before the failing one stay
    committed.
  - On a valid database the ego, user, `user_node`, circle, group and group-lookup steps
    never fail.
  - The only failures are listed: a tagged feature name that no feature row carries, a
    key of `ego_features` that is not a node, or an edge with an endpoint that is not a
    node.
  - The ingest never deletes or alters a row and never writes `circle_member`. Each
    circle it adds belongs to the ego.
  - Replaying a step adds no row, except the group step and the feature step after it.
    `feature_group` has no key but its serial id, so every run adds a new group for each
    name, and `group_map` then sends each name to that new group. Every run therefore
    files each feature under a group it created itself (`IngestFilesUnderNewGroups`). A
    second run stores every feature name a second time, under the new groups
    (`ReingestDuplicatesFeatures`).

Some of the code's behaviour differs from what its names suggest. The model follows the code.

- Vocabulary names are not split into a group and a name at `:`.
- A bit vector longer than the vocabulary is accepted. Only a `"1"` at a missing index
  fails, and other tokens are ignored unchecked.
- Neo4J merges `Circle` by `id` alone, and `FeatName` by `name` alone. A name shared by
  two groups is one node with OWNS_FEAT from both.
- Neo4J drops a relationship whose MATCH finds no node, silently. PostgreSQL instead
  raises a foreign-key violation.
- PostgreSQL keys `circle` by `circle_id` alone. A circle id already owned by another
  ego keeps that owner (`IngestStores`).
- A second PostgreSQL run inserts the feature groups again (`GroupReplayAdds`,
  `GroupBatch`). It then adds a full second set of `feature_name` rows under the new
  group ids (`FeaturesUnderNewGroups`, `ReingestDuplicatesFeatures`). So the relational
  write is not idempotent.
- The group of a feature name is the first key carrying that name in the read-back map's
  order. This is not a fixed tie-break such as the lowest id, and it may be another
  group's feature (`ResolveFeatureRow`).

## Model

| member | source | states |
|---|---|---|
| Chunking.ChunksMeaning | ingestor.py:1-3 | concatenating the chunks gives the input back; there are no chunks exactly when the input is empty; every chunk has between 1 and `size` elements; every chunk but the last has exactly `size` |
| Chunking.SplitToChunks | ingestor.py:1-3 | a step of 0 is the only error (`range` raises); a negative size yields no chunks; a positive size yields `Chunks` |
| Chunking.ChunkList | ingestor.py:2-3 | the loop that slices at offsets `0, size, 2*size, …` produces exactly `Chunks(data, size)` |
| Chunking.ChunkElements | ingestor.py:3 | every element of every chunk is an element of the input |
| Chunking.FlattenConcat | ingestor.py:2-3 | flattening distributes over concatenation of chunk lists |
| Chunking.ChunksPrefix | ingestor.py:1-3 | the first `k` chunks concatenate to the first `k * size` elements of the input (or all of it), and chunk `k` starts inside the input |
| Chunking.ChunkAt | ingestor.py:1-3 | chunk `k` covers the elements from `k * size` up to `(k + 1) * size` or the end |
| Tokens.RStrip | parser.py:29 | `rstrip()` returns a prefix that does not end in whitespace, and drops only whitespace |
| Tokens.LStrip | parser.py:19 | `lstrip()` returns a suffix that does not start in whitespace, and drops only whitespace |
| Tokens.Split | parser.py:19 | every field of `split()` is non-empty and free of whitespace |
| Tokens.SplitRuns | parser.py:19 | for every text, the fields of `split()` are its runs of non-whitespace in order: the text is the fields with all-whitespace gaps around them, and the gaps between two fields are not empty |
| Tokens.SplitWordThen | parser.py:19 | a word followed by whitespace or by nothing is the first field, and splitting goes on after it |
| Tokens.SplitEmpty | parser.py:19 | `split()` yields no field exactly when the text is all whitespace |
| Tokens.SplitJoinSpaced | parser.py:19 | `split()` undoes `" ".join(words)` for non-empty, whitespace-free words |
| Tokens.SplitAtSpace | parser.py:29 | `split(" ", 1)` has one part exactly when the text has no space; otherwise the text is the first part, a space and the rest, and the first part has no space |
| Tokens.DecimalRoundTrip | parser.py:30 | `int(str(n)) == n` for every natural `n` |
| PyDict.Get | parser.py:43 | `d[k]` succeeds exactly when `k` is a key |
| PyDict.PutGet | parser.py:30 | after `d[k] = v`, `d[k]` is `v` and every other key reads as before |
| PyDict.PutKeys | parser.py:48 | assigning an existing key keeps the key order; a new key goes last |
| PyDict.Append | parser.py:65 | `d[k].append(v)` on a `defaultdict(list)` extends `d[k]` (missing as `[]`) by `v`, leaves other keys alone, and adds `k` last if it is new |
| PyDict.FromPairsLastWins | ingestor.py:366 | `dict(pairs)[k]` is the value of the last pair with key `k` |
| PyDict.FromPairsValueFrom | ingestor.py:366 | every value of `dict(pairs)` comes from a pair with that key |
| PyDict.FromPairsKeys | ingestor.py:366 | the keys of `dict(pairs)` come in order of first occurrence |
| PyDict.FromPairsDistinct | ingestor.py:377 | with distinct keys, `dict(pairs)` keeps every pair in order |
| PyDict.PairsLength | ingestor.py:58 | the flattened `items()` pairs are as many as the lists' total length |
| PyDict.PairsValuesFor | ingestor.py:58 | the flattened pairs for key `k` carry exactly `d[k]`, in order, duplicates included |
| PyDict.PairsConcat | ingestor.py:380-390 | flattening the items of two dictionaries one after the other is flattening each |
| Parser.ParseLines | parser.py:17-20 | on success, one item per line and item `i` is line `i` parsed; on failure, the error names a line that fails with that reason and every earlier line parses |
| Parser.ParseLinesOk | parser.py:17-20 | the file parses exactly when every line does |
| Parser.ParseLinesFails | parser.py:18-19 | an error within the first `i` lines is the error of the whole file |
| Parser.ParseEach | parser.py:17-20 | the `for line in f: items.append(...)` loop returns `ParseLines` of the lines |
| Parser.ParseEdges | parser.py:14-22 | `parseEdges` is that loop over single edge lines |
| Parser.EdgeLineRoundTrip | parser.py:19 | a line `src dst\n` of two whitespace-free tokens parses to `(src, dst)` |
| Parser.BlankLineIsNotAnEdge | parser.py:19 | a blank line fails with two fields expected and none found |
| Parser.ParseIntoDict | parser.py:27-30 | the `for line in f: d[key] = value` loop returns the parsed pairs folded into a dictionary, a later key overwriting |
| Parser.ParseFeatNames | parser.py:24-32 | `parseFeatNames` is that loop over vocabulary lines |
| Parser.FeatNameLineRoundTrip | parser.py:29-30 | a line `str(n) name\n` parses to `(n, name)` for any name not ending in whitespace, spaces and `:` kept |
| Parser.ParseFeatNamesLastWins | parser.py:30 | an index maps to the name on the last line with that index |
| Parser.OnePositions | parser.py:44-45 | the positions holding exactly `"1"`, all of them, increasing, never more than the tokens |
| Parser.ActiveNamesOk | parser.py:42-46 | the names are found exactly when the vocabulary has every `"1"` position; then they are the vocabulary's names at the `"1"` positions, in order, at most one per token |
| Parser.ActiveNamesErr | parser.py:43 | otherwise the error is the first `"1"` position the vocabulary lacks |
| Parser.MapNamesToFeats | parser.py:34-50 | `mapNamesToFeats` is the dictionary loop over feature lines: an empty line fails, the first token is the key, a later line for the node replaces it |
| Parser.MapNamesToEgoFeats | parser.py:52-56 | only the first line is read; the one key is `egoId`, mapped to the names at its `"1"` positions; it succeeds exactly when the vocabulary has every `"1"` index, and otherwise the error names the first `"1"` index the vocabulary lacks |
| Parser.AppendMembers | parser.py:64-65 | the inner loop appends the members one by one under the circle, as `Extend` |
| Parser.ExtendGet | parser.py:64-65 | after the appends the circle's list is its old list plus the members, and exists only if it did or the members are not empty |
| Parser.ExtendValues | parser.py:64-65 | the circle's list, a missing one read as `[]`, grows by exactly the members |
| Parser.ExtendOther | parser.py:64-65 | appending under one circle leaves every other circle as it was |
| Parser.ExtendKeys | parser.py:64-65 | a circle becomes a key, at the end, only on its first member |
| Parser.ParseCircles | parser.py:58-66 | `parseCircles` succeeds exactly when every line parses and then returns the lines grouped by circle; otherwise it returns the first bad line's error |
| Parser.GroupMembers | parser.py:61-65 | each circle holds all the members of every line naming it, in line order with duplicates, and a circle without members is absent |
| GraphIngest.BuildRecords | ingestor.py:32-61 | fails exactly when `ego_features` lacks the ego; otherwise one circle record per circle key owned by the ego, `memberships` is `Memberships(circles)` (total members long), one user per key, the feature groups enumerate the distinct group names, one feature record per `feats` pair in order, one ego-follow per user from the ego, `feature_map` is `FeatureMap(node_features)` (total features long), so `MembershipsPerCircle` and `FeatureMapPerNode` apply to the records, the ego's features in order, one follow per edge in order |
| GraphIngest.MembershipsPerCircle | ingestor.py:40-47 | the membership records of a circle are exactly its members, in order, duplicates kept |
| GraphIngest.FeatureMapPerNode | ingestor.py:58 | the feature records of a node are exactly its active features, in order |
| GraphIngest.RecordsPerCircleAndNode | ingestor.py:40-58 | in the records `ingestEgoNetwork` builds, the membership records naming a circle are exactly its members and the feature records naming a node exactly its active features, in order |
| GraphIngest.Step | ingestor.py:117-126 | a row merges its node, and merges its relationship only when every MATCHed node exists |
| GraphIngest.ApplyConcat | ingestor.py:105-111 | statements applied one after another compose |
| GraphIngest.ApplyValid | ingestor.py:154-211 | MATCH never lets a relationship point at a missing node |
| GraphIngest.ApplyClosedForm | ingestor.py:98-211 | for rows ordered so that nothing needs a node created later, the graph gains exactly the merged nodes and the relationships whose nodes end up present |
| GraphIngest.ApplyIdempotent | ingestor.py:98-211 | replaying such rows changes nothing |
| GraphIngest.OpsOf | ingestor.py:105-111 | an `UNWIND` statement runs one row per record, in record order |
| GraphIngest.IngestOrdered | ingestor.py:98-211 | the ingest's statement order (ego, users, circles, groups, feature names, then relationships) creates every node before the rows that need it |
| GraphIngest.ReingestUnchanged | ingestor.py:98-211 | ingesting the same records twice leaves the graph one ingest left |
| GraphIngest.ApplySameRows | ingestor.py:131-137 | two dependency-ordered row lists with the same members leave the same graph |
| GraphIngest.IngestIgnoresGroupOrder | ingestor.py:51-52 | the iteration order of the set of group names does not show in the graph |
| GraphIngest.IngestNodes | ingestor.py:98-150 | the ingest adds exactly the ego, the users, the circles, the groups and the feature names |
| GraphIngest.FollowRowsOnly | ingestor.py:191-199 | only an edge record yields a FOLLOWS relationship between two users |
| GraphIngest.IngestFollows | ingestor.py:191-199 | after the ingest two users are linked by FOLLOWS exactly when they were before, or an edge lists them and both are user nodes |
| GraphIngest.Neo4JIngestor.constructor | ingestor.py:6-8 | the ingestor starts on the given graph |
| GraphIngest.Neo4JIngestor.RunChunked | ingestor.py:105-111 | running a statement chunk by chunk is running its rows in order |
| GraphIngest.Neo4JIngestor.WriteNodes | ingestor.py:98-150 | the node statements applied in the source's order |
| GraphIngest.Neo4JIngestor.WriteRels | ingestor.py:154-211 | the relationship statements applied in the source's order |
| GraphIngest.Neo4JIngestor.IngestEgoNetwork | ingestor.py:23-213 | fails exactly when `ego_features` lacks the ego, leaving the graph untouched; otherwise the graph is the old one with every statement's rows applied |
| RelationalIngest.Exec | ingestor.py:236-289 | an inserted row either fails with a foreign-key violation naming itself, or the tables only grow |
| RelationalIngest.ExecConsistent | ingestor.py:236-289 | every accepted row keeps the primary keys, foreign keys, serial keys and `unique (group_id, name)` |
| RelationalIngest.SerialsFresh | ingestor.py:266-272 | the next value of each sequence is not yet a key |
| RelationalIngest.ExecInserted | ingestor.py:329-334 | an accepted row is present afterwards, new or already there |
| RelationalIngest.ExecOkGrows | ingestor.py:329-334 | a row accepted in a valid state is still accepted once the tables have grown |
| RelationalIngest.ExecReplay | ingestor.py:331-332 | replaying a present row, other than a group, changes no table |
| RelationalIngest.GroupReplayAdds | ingestor.py:266-269 | on a valid database a group row is always added, even for a name already stored |
| RelationalIngest.ExecMany | ingestor.py:329-334 | a batch either grows the tables or fails on one of its own rows |
| RelationalIngest.ExecManyConsistent | ingestor.py:329-334 | an accepted batch keeps every constraint |
| RelationalIngest.ExecManyStep | ingestor.py:329-334 | a batch whose first row is accepted goes on with the rest from the tables that row left |
| RelationalIngest.ExecManyConcat | ingestor.py:329-334 | a batch of two parts is the first part, then the second on what it left, unless the first fails |
| RelationalIngest.ExecManyAllOk | ingestor.py:329-334 | a batch whose every row is acceptable on its own is accepted whole, and each row is present afterwards |
| RelationalIngest.ExecManyFails | ingestor.py:329-334 | a failing batch fails on a row that some grown state rejects |
| RelationalIngest.ExecManyReplay | ingestor.py:329-334 | a batch of present rows, none a group, changes no table |
| RelationalIngest.ExecManyOwned | ingestor.py:346-353 | a batch that claims circles only for the ego adds circles only for it and leaves `circle_member` alone |
| RelationalIngest.RunChunksAsOne | ingestor.py:328-335 | when every row is accepted, committing chunk by chunk leaves what one transaction would; when one fails, the error is the one a single transaction raises and the committed tables have only grown |
| RelationalIngest.ChunkedAsOne | ingestor.py:328-335 | the same, for the chunks of `split_to_chunks` |
| RelationalIngest.RunChunksKeepsPrefix | ingestor.py:328-335 | when a row fails, there is a chunk `k` such that the committed tables are exactly those a single transaction over the chunks before `k` leaves, and chunk `k` is the first whose rows fail |
| RelationalIngest.ChunkedKeepsPrefix | ingestor.py:328-335 | the same for `split_to_chunks`: the committed tables are those of one transaction over the first `k * 50000` rows, and the block of rows after them fails |
| RelationalIngest.ChunkedReplay | ingestor.py:328-335 | a chunked step of present rows, none a group, commits and changes no table |
| RelationalIngest.RunChunksConsistent | ingestor.py:328-335 | every committed state of a chunked run keeps the constraints |
| RelationalIngest.ChunkedOwned | ingestor.py:346-353 | a chunked step that claims circles only for the ego adds circles only for it |
| PsqlIngest.GroupMapKeys | ingestor.py:366 | `group_map` has exactly the stored group names as keys |
| PsqlIngest.GroupMapLatest | ingestor.py:366 | a name stored several times maps to the id of its last row |
| PsqlIngest.GroupMapIds | ingestor.py:366 | every value of `group_map` is a stored group id |
| PsqlIngest.FeatureRows | ingestor.py:368 | the rows are built exactly when every feature's group is in `group_map`; then row `i` is `(group_map[group_i], name_i)`; otherwise the error is the first missing group |
| PsqlIngest.FeatureIdMapRows | ingestor.py:377 | under `unique (group_id, name)`, `feature_id_map` is the table itself, row for row |
| PsqlIngest.FeatureIdMapIds | ingestor.py:377 | every value of `feature_id_map` is a stored feature id |
| PsqlIngest.FirstGroupWithNameMeaning | ingestor.py:382 | `next(...)` finds no group exactly when no key has the name; otherwise it gives the group of the first key with the name |
| PsqlIngest.ResolveFeatureRow | ingestor.py:382-383 | a name resolves to nothing exactly when no stored feature has it; otherwise to the id of the first such row in table order, whatever its group |
| PsqlIngest.ResolveFeatureIds | ingestor.py:383 | a resolved id is a stored feature id |
| PsqlIngest.ResolveAll | ingestor.py:379-390 | a successful resolution has one row per pair |
| PsqlIngest.ResolveAllMeaning | ingestor.py:379-390 | the rows are built exactly when every name resolves, row `i` tagging node `i` with its name's id; otherwise the error names the first name that resolves to nothing |
| PsqlIngest.ResolveAllErr | ingestor.py:379-390 | once a name fails to resolve, later pairs change nothing |
| PsqlIngest.ResolveValues | ingestor.py:381-384 | the inner `for name in feats` loop appends one row per name, or stops at the first unknown name |
| PsqlIngest.ResolveItems | ingestor.py:380-384 | the outer `for node_id, feats in d.items()` loop resolves every item's names in order |
| PsqlIngest.BuildNodeFeatureRows | ingestor.py:379-390 | `node_feature_rows` holds the rows of every `node_features` item, then of every `ego_features` item |
| PsqlIngest.StepOk | ingestor.py:328-335 | a step whose every row is acceptable commits all of them, as one transaction would, keeps the constraints, and leaves each row present |
| PsqlIngest.EgoStep | ingestor.py:305-320 | on a valid database the ego's `node` and `ego` rows are committed |
| PsqlIngest.UserSteps | ingestor.py:328-344 | with the ego stored, the user and `user_node` steps commit and store every user |
| PsqlIngest.CircleGroupSteps | ingestor.py:346-364 | with the ego stored, the circle and group steps commit and store every circle and group |
| PsqlIngest.SetupSucceeds | ingestor.py:305-364 | on a valid database the first five steps never fail, and leave the ego, every user, `user_node` row, circle and group stored |
| PsqlIngest.SetupReplay | ingestor.py:305-353 | after the first five steps, a second run's ego, user, `user_node` and circle steps commit and add no row |
| PsqlIngest.FeatureSucceeds | ingestor.py:366-375 | with every group stored, the group lookup never fails and every feature name ends up stored, under the group `group_map` gives its group name |
| PsqlIngest.GroupBatch | ingestor.py:357-364 | on tables whose group ids are below the sequence, the group step appends one new row per name, numbered from the sequence, names already stored included |
| PsqlIngest.GroupExec | ingestor.py:360-361 | one group row is appended under the sequence's next id, and the ids stay below the sequence |
| PsqlIngest.NewGroupsLatest | ingestor.py:366 | behind any rows, `group_map` sends a name of a distinct list to the new group created for it |
| PsqlIngest.SerialAheadFresh | ingestor.py:267 | no stored group has an id at or beyond the sequence's next value |
| PsqlIngest.GroupStepMap | ingestor.py:357-366 | after the group step on a valid database, `group_map` sends every group name to a group that step created |
| PsqlIngest.FeaturesUnderNewGroups | ingestor.py:357-375 | the group step and the feature step file every feature under a group that group step created |
| PsqlIngest.IngestFilesUnderNewGroups | ingestor.py:294-411 | on a valid database every ingest stores each feature under a group the ingest created, whatever the later steps do |
| PsqlIngest.ReingestDuplicatesFeatures | ingestor.py:294-411 | running the same ingest twice stores every feature name under two different groups |
| PsqlIngest.TagOutcome | ingestor.py:377-399 | the `node_feature` step keeps the constraints and fails only as listed |
| PsqlIngest.RefusedTag | ingestor.py:377-399 | when the resolved `node_feature` rows are refused, the refused row is a `node_feature` row tagging the node of some pair, and that node is not stored |
| PsqlIngest.EdgeOutcome | ingestor.py:404-411 | the `edge` step keeps the constraints and fails only on an endpoint that is no node |
| PsqlIngest.IngestFailures | ingestor.py:294-411 | on a valid database the ingest keeps every constraint; its only failures are a tagged name no feature row carries, an unknown `ego_features` key, or an edge endpoint that is no node; the group lookup never fails |
| PsqlIngest.IngestOwned | ingestor.py:294-411 | whatever the outcome, the ingest deletes and alters nothing, never writes `circle_member`, and every circle it adds belongs to the ego |
| PsqlIngest.IngestStores | ingestor.py:294-411 | on a valid database, whatever the outcome, the ego, every user with its `user_node` row, and every circle are stored; a taken circle id keeps its owner |
| PsqlIngest.PSQLIngestor.constructor | ingestor.py:217-220 | the ingestor starts on the given tables |
| PsqlIngest.PSQLIngestor.RunChunked | ingestor.py:392-399 | one `executemany` and `commit` per chunk, as `Chunked` |
| PsqlIngest.PSQLIngestor.WriteEgo | ingestor.py:305-320 | the ego's two rows in one transaction |
| PsqlIngest.PSQLIngestor.Setup | ingestor.py:305-364 | the first five steps, each only after the previous one succeeded |
| PsqlIngest.PSQLIngestor.WriteFeatures | ingestor.py:366-375 | `group_map`, the feature rows built from it, and their chunks |
| PsqlIngest.PSQLIngestor.WriteTags | ingestor.py:377-399 | `feature_id_map`, the resolved `node_feature` rows, and their chunks |
| PsqlIngest.PSQLIngestor.IngestEgoNetwork | ingestor.py:294-411 | the database and the result are those of `IngestSpec`, the steps in the source's order, each committing before the next |

## Left out

- Opening and reading files is not modelled. A file is the sequence of its lines, and
  `mapNamesToEgoFeats` reads an empty file as one empty line.
- `getUids` (parser.py:5-12) iterates a directory, which is I/O.
- The drivers, connections, `close` and `wipe` are foreign calls or DDL text.
  `wipe` truncates whole stores.
- Constraint creation (ingestor.py:65-95) and `setup_tables` (ingestor.py:236-292)
  are not modelled as statements. `Exec` enforces the constraints they declare, and
  the tables start from any state the caller passes in.
- The constraint `node_type_check` is implied: the model's node type has only the
  two allowed values.
- `unique (ego_id, circle_id)` is implied by the primary key on `circle_id`, so it is
  not modelled separately.
- `on delete cascade` is not modelled, because nothing in the core deletes.
- The `.clear()` calls only release memory and have no effect on what is written.
- A Python set has no defined iteration order. The order of the group names is an
  extra input, `groupOrder`, required to list the set exactly once.
- `select` returns rows in an unspecified order. The model takes table insertion order
  as the fetch order.
- A serial id consumed by a skipped or rolled-back row is not reused. The model keeps
  the advance for skipped rows, but a rolled-back chunk restores the sequence too.
  PostgreSQL would not roll the sequence back; this affects only which ids later rows
  get.
- The state of an aborted PostgreSQL transaction after an exception is not modelled.
  The ingest stops, with the earlier chunks committed.
- Tokens.ParseInt: accepts only ASCII digits, while Python's `int()` also accepts other
  Unicode decimal digits. The data files hold ASCII indices.
- The Cypher and SQL text, and the query language's own behaviour beyond
  MERGE/MATCH/`on conflict do nothing`, are not modelled.
- Neo4J's uniqueness constraints are not modelled: the graph is a set, so a node merges
  once by construction.
- `main.py`, `queries.py`, `benchmark.py` and `plots.py` are not part of this model.
