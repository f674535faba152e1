# Restauración data fix — a Dafny model

This project models the data migration `0002_restauracion_data_fix` of the
map-viewer backend. The migration repairs the layer configuration of the
"general" project. It makes sure the project has a layer group called
"Restauración". It also makes sure that group holds six restoration layers
with their production display name, order, GeoServer store (workspace) and
metadata record.

The model covers three tables of the `projects` app:

- `Project`, looked up by `nombre_corto`;
- `LayerGroup`, looked up by project and name;
- `Layer`, looked up by group and `nombre_geoserver`.

Each table is a map from primary key to row plus the next value of its key
sequence (`Tables.Table`).

- `objects.get` becomes `Tables.Lookup`. It classifies the filtered rows as
  none, exactly one, or several.
- "Several" is the ORM's `MultipleObjectsReturned`. The forward pass then
  returns a `Failure`. The migration's transaction commits nothing, so the
  database stays as it was.
- `get_or_create` is a lookup followed by `Tables.Insert` when nothing
  matched.
- `save(update_fields=…)` is `Tables.Update`.

The forward pass `RestauracionDataFix.Forwards` is a pure function. It
returns the new database and a log of the writes it made:

- `CreateGroup` and `CreateLayer` for rows it created;
- `SaveLayer` with the `update_fields` list of each save.

With the log, "a layer that already matches is not written" can be stated
directly.

Files:

- `results.dfy`: `Option` (nullable columns) and `Result` (operations that may raise).
- `tables.dfy`: tables, filters, `get`, create and save.
- `schema.dfy`: the `Project`, `LayerGroup` and `Layer` rows and the database.
- `migration.dfy`: constants, the desired layer table, reconciliation, `forwards_func`, `reverse_func`.
- `properties.dfy`: what one loop iteration and the whole loop over the desired layers guarantee.
- `theorems.dfy`: guarantees of the whole forward pass: when it raises, group handling, layer postconditions, frame, writes, idempotence, referential integrity.

## Model

| member | source | states |
|---|---|---|
| Tables.Filter | scripts/migrations/0002_restauracion_data_fix.py:10 | the filter yields exactly the keys of the rows satisfying it, each once (listed in ascending order; only their number matters to `get`) |
| Tables.Lookup | scripts/migrations/0002_restauracion_data_fix.py:9-13 | `get` reports "does not exist" exactly when no row matches, "multiple objects" exactly when two distinct rows match, and otherwise the one matching row |
| Tables.LookupDependsOnMatches | scripts/migrations/0002_restauracion_data_fix.py:34-36 | two tables on which a filter selects the same rows give the same `get` outcome |
| Tables.Insert | scripts/migrations/0002_restauracion_data_fix.py:34-44 | creation stores the row under a key no existing row has, and changes no other row |
| Tables.Update | scripts/migrations/0002_restauracion_data_fix.py:59 | a save replaces only the saved row; no row appears or disappears |
| RestauracionDataFix.NewGroup | scripts/migrations/0002_restauracion_data_fix.py:16-20 | a created group belongs to the project, is named "Restauración", and has order 7 and fold state "close" |
| RestauracionDataFix.NewLayer | scripts/migrations/0002_restauracion_data_fix.py:34-44 | a created layer has the group and GeoServer name it was looked up by, the desired four values, and `estado_inicial` false |
| RestauracionDataFix.Drift | scripts/migrations/0002_restauracion_data_fix.py:47-55 | a column is in `updates` if and only if the layer's value differs from the desired one; `updates` is empty exactly when all four agree; keys appear in insertion order |
| RestauracionDataFix.AssignAll | scripts/migrations/0002_restauracion_data_fix.py:56-58 | the `setattr` loop gives exactly the listed columns their desired values; all other columns keep theirs |
| RestauracionDataFix.Reconcile | scripts/migrations/0002_restauracion_data_fix.py:45-59 | writing only the differing columns yields the layer with all four reconciled columns set to the desired values and every other column kept |
| RestauracionDataFix.EnsureLayer | scripts/migrations/0002_restauracion_data_fix.py:34-59 | one iteration raises exactly when the layer's key matches several rows, naming that layer; otherwise it keeps the keys valid and touches neither projects nor groups |
| RestauracionDataFix.EnsureLayers | scripts/migrations/0002_restauracion_data_fix.py:33-59 | the loop can only raise for an ambiguous layer; on success it keeps keys valid and leaves projects and groups alone |
| RestauracionDataFix.Forwards | scripts/migrations/0002_restauracion_data_fix.py:4-20 | without a "general" project nothing changes and nothing is written; several "general" projects raise; projects are never modified |
| RestauracionDataFix.Reverse | scripts/migrations/0002_restauracion_data_fix.py:62-64 | the reverse migration leaves the database unchanged |
| RestauracionProperties.EnsureLayerRows | scripts/migrations/0002_restauracion_data_fix.py:34-59 | one iteration reconciles only the row with its key and leaves every other row as it was; a new row is the defaults row, created only when no row had the key, and is logged |
| RestauracionProperties.EnsureLayerEstablishes | scripts/migrations/0002_restauracion_data_fix.py:34-59 | after one iteration exactly one layer has the key, and it has the desired values |
| RestauracionProperties.EnsureLayerLog | scripts/migrations/0002_restauracion_data_fix.py:45-59 | one iteration writes at most once: it creates a fresh row, or saves exactly the non-empty drifted columns of the row with its key; and a row with its key whose columns drifted is saved with exactly that drift |
| RestauracionProperties.EnsureLayerOtherKey | scripts/migrations/0002_restauracion_data_fix.py:34-36 | one iteration changes neither which rows have another name's key nor their contents |
| RestauracionProperties.EnsureLayersRows | scripts/migrations/0002_restauracion_data_fix.py:33-59 | after the loop every pre-existing row is reconciled against its definition if it is in the group under a desired name, and untouched otherwise; every added row is the defaults row of a desired layer that had none |
| RestauracionProperties.EnsureLayersOtherKey | scripts/migrations/0002_restauracion_data_fix.py:33-36 | the loop leaves the rows under a name it does not list exactly as they were |
| RestauracionProperties.EnsureLayersConforms | scripts/migrations/0002_restauracion_data_fix.py:33-59 | after the loop every listed layer exists exactly once in the group, with its desired values |
| RestauracionProperties.EnsureLayersFails | scripts/migrations/0002_restauracion_data_fix.py:33-44 | the loop raises if and only if some listed layer already has several rows in the group, and the error names one such layer |
| RestauracionProperties.EnsureLayersQuiescent | scripts/migrations/0002_restauracion_data_fix.py:45-59 | over layers that already conform, the loop writes nothing and changes nothing |
| RestauracionProperties.EnsureLayersLog | scripts/migrations/0002_restauracion_data_fix.py:34-59 | every logged creation adds a row that was not there and every added row is logged as created; every save lists exactly the non-empty drifted columns of an existing row under a listed key, and every such row with a non-empty drift is saved with exactly that drift |
| RestauracionProperties.FirstWriteNotRepeated | scripts/migrations/0002_restauracion_data_fix.py:24-59 | with distinct names, the row one iteration creates or saves is not written again by the later iterations |
| RestauracionProperties.EnsureLayersWritesOnce | scripts/migrations/0002_restauracion_data_fix.py:24-59 | with distinct names, the loop creates or saves each layer row at most once |
| RestauracionTheorems.DesiredNamesDistinct | scripts/migrations/0002_restauracion_data_fix.py:23-31 | there are six desired layers and their GeoServer names are pairwise distinct |
| RestauracionTheorems.ForwardsFailsIffAmbiguous | scripts/migrations/0002_restauracion_data_fix.py:9-44 | the migration raises if and only if the "general" project, its group, or a desired layer in the target group matches several rows |
| RestauracionTheorems.NewGroupIsEmpty | scripts/migrations/0002_restauracion_data_fix.py:16-20 | with intact foreign keys, no layer is in the group that a creation would add |
| RestauracionTheorems.ForwardsGroup | scripts/migrations/0002_restauracion_data_fix.py:15-20 | afterwards the project has exactly one "Restauración" group; a created group has order 7 and fold state "close", is new and is logged first; an existing group is reused and no group is changed |
| RestauracionTheorems.ForwardsLayers | scripts/migrations/0002_restauracion_data_fix.py:24-59 | the group holds each desired layer exactly once with the desired values; existing layers keep `estado_inicial` and every non-reconciled column; layers outside the group or under other names are unchanged; new layers were missing, come from the desired table, and have `estado_inicial` false |
| RestauracionTheorems.ForwardsWrites | scripts/migrations/0002_restauracion_data_fix.py:16-59 | a group is created only when none existed; layer creations add fresh rows and every added layer is logged as created; every desired layer in the group whose columns drifted is saved with exactly the drifted columns, and every save is such a one; no layer row is created or saved twice in a run |
| RestauracionTheorems.ForwardsFillsNewGroup | scripts/migrations/0002_restauracion_data_fix.py:16-44 | with intact foreign keys, when the group had to be created, each desired layer in it is a new row with the desired values and `estado_inicial` false |
| RestauracionTheorems.ForwardsSkipsConformingLayers | scripts/migrations/0002_restauracion_data_fix.py:47-59 | a desired layer that already has its four desired values is never saved |
| RestauracionTheorems.ForwardsIdempotent | scripts/migrations/0002_restauracion_data_fix.py:9-59 | running the migration on its own result succeeds, writes nothing and changes nothing |
| RestauracionTheorems.ForwardsKeepsIntegrity | scripts/migrations/0002_restauracion_data_fix.py:16-44 | if every foreign key referred to an existing row before, it still does afterwards |
| RestauracionTheorems.RedViverosHasNoMetadata | scripts/migrations/0002_restauracion_data_fix.py:26 | afterwards "red_viveros" exists exactly once in the group, with no metadata record and store "visor" |

## Left out

- Columns the migration neither reads nor writes, such as `LayerGroup.color` and the project's coordinates: the model's rows hold only the columns the migration names. Their preservation by a reconciling save follows from `save(update_fields=…)` writing only the listed columns.
- `metadata_id` is compared as a nullable text value. The `Layer` model definition is not part of this model. If the column is a UUID field, Python compares a `UUID` object with a string as unequal, and the real migration would re-save `metadata_id` on every run. The model does not capture that.
- The retry inside `get_or_create` that catches `IntegrityError` from a concurrent insert is left out: the model is single-threaded.
- `transaction.atomic()` and the migration's own transaction are modelled only through their outcome: a `Failure` means nothing was committed.
- Exceptions other than `MultipleObjectsReturned` are left out. These include database errors and constraint violations raised by the insert.
- Foreign-key enforcement by the database is not modelled as an operation. `Db.ReferentiallyIntact` states it, and `ForwardsKeepsIntegrity` proves the migration keeps it.
- The `Migration` class and its dependency on `0001_initial` are framework wiring.
- The browser, admin, REST and PostGIS integration tests in `tests/` and `scripts/test_django_gis.py` are left out. They drive a browser, a live server or a live database and contain no logic of their own; geometry area and centroid come from PostGIS.
