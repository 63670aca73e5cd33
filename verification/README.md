# Pocketknife, modelled and proved in Dafny

Pocketknife serves small apps from manifests. A manifest declares entities, fields and tools; the
engine materializes it as a SQLite database, migrates that database when the manifest changes, checks
at every boot that the two still belong together, and serves rows and tools over it. This project
models that engine and proves what it promises.

The centre is the schema-migration engine and the boot gate that protects it:

- `Schema`, `Sql`, `Materialize`: manifests, an abstract relational database with the statements the
  engine issues, and what a manifest means as a catalogue of tables, columns, CHECKs, foreign keys and
  unique indexes.
- `Diffs`, `Changesets`, `Witnesses`, `Executor`, `ExecuteLoops`: the id-matched difference, its
  classification, the witness gate, and both migration paths (native ALTERs and table rebuild), as
  loops over an open transaction proved against what each step does.
- `Naming`: which names SQL accepts, and that every statement and every migration keeps to them.
- `Views`, `NativePath`, `ChangesetShape`, `DiffMembers`, `Migration`, `WholeMigration`, `Confinement`: how
  a whole changeset acts, one column, one table and one database at a time.
- `Reach`, `FastSlow`, `PathsAgree`, `Lossless`, `Remaps`, `Meaning`, `References`, `Tightening`, `Defaults`,
  `Gate`, `Confirmation`, `Findings`: the theorems about one migration.
- `Fingerprints`, `FingerprintText`, `FingerprintSchema`, `FingerprintDiff`: the canonical text behind a
  fingerprint, read back line by line, and its agreement with the difference.
- `Hosts`, `HostLoops`, `Runs`, `WholeRuns`, `Restarts`, `ServedColumns`: booting and applying as a state
  machine over manifests on disk, databases, snapshots and the registry, with every failure the file
  system and SQLite may add, and the invariant over every run.

Around it stand the row layer (`RowCodec`, `Listing`, `DomainOps`) with what is promised of it
(`FieldMeaning`, `SentValues`, `WriteOutcomes`, `ListOrder`, `DomainSound`), the static checker and
transactional interpreter of tools (`Validation`, `Tools`, `ToolSound`, `DataFlow`), the literals of the SQL
the engine writes (`Literals`) and the sandbox's racing compile cache (`CompileCache`). `Scenarios`,
`Examples`, `WordExamples` and `RowExamples` hold a literal manifest for each place where the engine does
less than it says, and `PromiseExamples` one for some of the plainest things it does say.

## Main results

1. A successful migration of the difference of two manifests reaches the new manifest's catalogue,
   whichever path each entity takes, and the min/max CHECKs exactly when bounds were kept or the table
   was rebuilt (`Reach.MigrationReachesTarget`).
2. The native path refines the rebuild, down to where foreign keys are declared
   (`FastSlow.NativeRefinesRebuild`), and the two succeed on the same databases but for columns SQLite
   will not drop or cannot read (`PathsAgree.PathsSucceedTogether`). Safe changes are lossless, with an
   explicit recovery of the old rows (`Lossless.SafeIsLossless`); with remaps attached they are recoverable
   exactly when no held value is merged or overwritten by the clock (`Remaps.RemapsOnSafeChanges`). Every
   witness means exactly what it declares (`Meaning.RebuildMeans`).
3. A migration that succeeds leaves every row within its constraints and no reference dangling, and one
   that would leave a reference dangling fails (`References.MigrationKeepsReferences`,
   `References.ReferencesDecide`).
4. What apply asks for is read off the two manifests: confirmation exactly when something is taken away,
   and a witness for exactly what old rows lack (`Confirmation.ApplyAsks`); the witness gate is complete
   (`Gate.GateIsComplete`).
5. The fingerprint's text decides schema equality, and agrees with the difference except on bounds
   (`FingerprintSchema.CanonicalTextDecidesSchema`, `FingerprintDiff.DiffAgreesWithFingerprint`).
6. A fresh boot succeeds exactly on manifests whose names SQLite accepts where they stand
   (`MaterializeFresh.MaterializeFreshReachesCatalogue`), and its catalogue means the manifest
   (`FieldMeaning.FreshDatabaseMeansManifest`). Whatever a boot finds, what it serves has its columns, and
   exactly which databases it serves is known (`ServedColumns.ServedHaveTheirColumns`,
   `ServedColumns.BootServesExactly`).
7. Apply is all or nothing and destructive operations are guarded (`Runs`). Over every run of boots,
   applies, row writes and failures of other apps, registered schema, manifest on disk, catalogue and
   recorded fingerprint agree (`WholeRuns.RunsKeep`), so a restart serves what was promoted
   (`Restarts.RestartServes`), and the two ways a promotion can go wrong are always noticed
   (`Restarts.PromotedManifestBoots`, `Restarts.FailedPromotionIsDetected`).
8. Coercion takes exactly the JSON a field may hold, and what is sent is what is stored and answered
   (`SentValues.CoercionIsExact`, `SentValues.CreateKeepsWhatWasSent`); when a write succeeds is exact too
   (`WriteOutcomes.CreateOutcome`). Every row stays within the DDL's constraints over every sequence of
   writes (`DomainSound.RowsStaySound`).
9. Lists are in the order asked for and hold what their filters admit
   (`ListOrder.ListIsInRequestedOrder`, `ListOrder.ListHoldsWhatFiltersAdmit`), whatever the physical order,
   and pages cover them (`Listing.PagesCoverTheList`); renames only relabel
   (`RowCodec.RenamesMoveNoData`).
10. The checker of tools is sound, tools are atomic, each step does and answers what a permitted direct
   call would (`ToolSound`), and every value a call writes, looks up or compares comes from where its
   template says (`DataFlow.CallFlows`).
11. Compile's cache agrees over every interleaving (`CompileCache.SuccessfulCallsAgree`).

## Where the code does less than it says

The model follows the code. These are the places where the code and its documentation part ways, or
where a promise holds only under a condition. Each condition is proved exact, and each failure is shown
at a literal manifest that validation accepts; where a migration fails, its witness gate was open.

- The difference never compares min and max (engine/migrate/diff.go:101-137), which the fingerprint
  covers. A change of bounds alone is reported as no change (`Restarts.BoundsNeverMoveAlone`,
  `Examples.MovedBoundAlone`); one that also renames is promoted and then refused by the next boot,
  although engine/migrate/execute.go:27-30 says a rename leaves nothing to record
  (`Restarts.PromotedManifestBoots`, `Examples.MovedBoundAndRename`); and a natively changed table keeps
  its old CHECKs (`Reach.MigrationReachesTarget`, `Examples.StaleCheck`).
- Validation is said to prove every id SQL-safe (engine/materialize/materialize.go:8-10), but it only
  matches a pattern. A first boot fails exactly when an id is a reserved word (`order`), an entity is named
  `if` or starts with `sqlite_`, a field that is no expression (`cast`, `raise`) is unique or has a CHECK, a
  unique field reads as the clock (`current_date`; but for one whose index name another's index already
  took), or a unique field's index is named like an entity
  (`MaterializeFresh.MaterializeFreshReachesCatalogue`, `MaterializeFresh.DistinctNamesCastNoShadow`,
  `WholeRuns.BootRefusesNames`, `WholeRuns.BootRefusesClocks`, `Examples.KeywordIds`, `Examples.InternalId`,
  `Examples.IndexNamedLikeTable`, `WordExamples.ClockIndex`, `WordExamples.IfIsNoTable`,
  `WordExamples.CheckedCast`). The same holds of every later boot; a promotion that moves bounds onto a
  field that is no expression, which may run no SQL for them, is refused at the next one
  (`Restarts.PromotedManifestBoots`).
- A field that is no expression but has neither an index nor a CHECK boots, and then keeps its entity from
  ever being rebuilt (`FastSlow.UnreadableIsRefused`, `WordExamples.CastIsNeverRebuilt`). The values of a field that reads as
  the clock survive no rebuild of its entity: the copying SELECT reads the clock, and every row ends up with
  the time of the migration, even when every operation is safe (`Remaps.ClockColumnIsOverwritten`,
  `WordExamples.SafeChangeWritesTheDate`).
- Witnesses are declared by field id, and field ids are unique within an entity only (engine/migrate/apply.go:60-64).
  Operations on one id of two entities share a witness, and when they need two kinds one apply cannot make both
  changes (`Gate.SharedIdSharesWitness`, `WordExamples.SharedFieldId`).
- The documentation says drops use native DROP COLUMN (README.md:413). SQLite documents that it refuses
  a column with an index, or one named in a FOREIGN KEY of the table. So a unique field, and a reference
  that boot or a rebuild declared, of an entity that nothing else forces to be rebuilt can never be dropped
  (`Findings.UndroppableFieldNeverDrops`, `Examples.DroppedUniqueField`,
  `Examples.BootedReferenceIsNotDropped`). A reference added natively carries its foreign key with it and
  can be (`Findings.AddedFieldDrops`, `Examples.AddedReferenceIsDropped`). Names apart, nothing else makes
  one migration path fail where the other succeeds (`PathsAgree.PathsSucceedTogether`).
- A remap witness is applied whenever it is attached to an enum field in a rebuild, even on a change
  labelled safe. The old rows can then still be told exactly when it merges no value a row holds with
  another and no rebuild reads the clock (`Remaps.RemapsOnSafeChanges`, `Examples.MergingRemap`); if it takes
  a held value out of the new set the migration fails (`Remaps.RemapOutsideIsRefused`,
  `Examples.EscapingRemap`); and one without pairs passes the gate but is not SQL (`Findings.EmptyRemapNeverRuns`, `Examples.EmptyRemapFails`).
- A field widened and tightened at once ignores its backfill: the gate opens, and the rebuild succeeds
  if and only if there was nothing to fill, where its columns can be read
  (`Tightening.WidenedAndTightenedNeedsNoNulls`, `Examples.UnusedBackfill`). One narrowed and tightened at once never passes the gate
  (`Gate.NarrowedAndTightenedNeverPasses`, `Examples.NarrowedAndTightened`).
- A rebuild of entity `x` creates a table `mig_x`, which is also a legal entity id; a manifest that
  declares both can never rebuild `x` (`Findings.TakenTempNameBlocksRebuild`, `Examples.TakenTempName`).
- Enum values are joined with commas in the fingerprint, so two different enums can print alike
  (`FingerprintDiff.CommasCollide`, `Examples.CommaIsNotNoticed`).
- Unique index names are not injective in the ids they are made of (`MaterializeFresh.IndexNamesClash`,
  `Examples.ClashingIndexNames`); the catalogue of a fresh database is right exactly when they do not clash.
- The checker of tools does not look at the field a `steps.` reference names, so such a reference can
  fail at run time; whether it does is known before anything runs
  (`ToolSound.CheckedRefFailsOnlyOnField`, `ToolSound.ResultsHaveDeclaredKeys`,
  `RowExamples.ReferenceToAbsentField`).
- An added datetime field gives existing rows the text of its default
  (engine/migrate/execute.go:165-166), while new rows get the canonical form
  (engine/domain/coerce.go:141-150). The two read alike exactly when the default has no other canonical
  form; for every other type they always do (`Defaults.DefaultsAgree`, `Defaults.AddedDefaultReadsAlike`,
  `RowExamples.DayReadsTwoWays`).

## How the model represents the engine

- Integers and reals are mathematical; int64 limits appear where the code refuses a number for them.
- A row is a map from column id to a SQLite value with its storage class, and column affinity, CAST,
  round and comparison are written out. Text conversions that Go or SQLite perform (number formatting,
  text to number, datetime parsing) are the functions of `Sql.Platform`. So is what SQLite makes of an
  unquoted word: a reserved word names nothing, some words name no table, some name a column that is no
  expression, and some read as the clock, which stands still during a migration. These are any sets of
  words; only that no reserved word has an underscore is assumed.
- Tables and indexes share one namespace, and a table remembers which of its foreign keys belong to a
  column rather than to the table (`Sql.Table.inline`).
- A statement either succeeds or is a fault and then changes nothing. A migration runs against a
  transaction of its own; whether it commits is a parameter, as are the outcomes of taking a snapshot,
  restoring it, writing the manifest and pruning (`Hosts.Luck`).
- Column order and DEFAULT clauses are not part of the catalogue; CREATE, DROP and RENAME TABLE, ADD and
  DROP COLUMN, unique indexes, INSERT ... SELECT, and the recorded fingerprint are.
- Go's iteration over maps is an arbitrary choice, and what is proved holds for every order.
- Two failures of apply cannot keep the invariant and are named in `WholeRuns.Breaks` (a torn restore
  and a manifest not written after the commit), together with promotions whose unique index names
  clash, those that only rename but move bounds, and those that move bounds onto a column that is no expression. They are properties of a single apply that a caller
  can see; other apps are not affected by them.

## Model

| member | source | states |
|---|---|---|
| `Changesets.EnumRemovedValues` | engine/migrate/classify.go:117-128 | reports a removal exactly when some old enum value is no longer allowed |
| `Changesets.WitnessedIsDestructive` | engine/migrate/witness.go:67-83 | every operation that needs a witness is classified destructive, so the confirmation gate covers it |
| `Changesets.Changeset.ClassifyAll` | engine/migrate/classify.go:79-83 | overwrites every label in place with the one its change deserves, whatever it was, and nothing else |
| `Changesets.Changeset.Attach` | engine/migrate/apply.go:60-64 | attaches exactly the declared witness of each operation's field and leaves the other operations alone |
| `Changesets.Changeset.DestructiveOps` | engine/migrate/classify.go:98-107 | holds exactly the destructive operations, in order; it is empty exactly when there is none |
| `Changesets.Changeset.MissingWitnesses` | engine/migrate/witness.go:89-101 | holds exactly the operations that lack the kind of witness they need |
| `Confirmation.DestructiveIsDestroying` | engine/migrate/classify.go:16-75 | a changeset holds a destructive operation if and only if the new manifest drops an entity or a field, adds a required field without a default, narrows, tightens or makes unique a field, removes an enum value, or points a reference elsewhere |
| `Confirmation.GateAsksForWitnesses` | engine/migrate/witness.go:67-101 | no witness is missing if and only if each such added or tightened field has a backfill declared and each changed type but integer to real a coercion |
| `Confirmation.EmptyDifference` | engine/migrate/diff.go:19-156 | the difference is empty if and only if nothing but bounds, defaults and order differs |
| `Diffs.SameStringSet` | engine/migrate/diff.go:141-156 | the counting loops decide multiset equality |
| `Diffs.DiffField` | engine/migrate/diff.go:101-137 | one operation per dimension in which a surviving field changed; bounds and defaults are not looked at |
| `Diffs.DiffEntity` | engine/migrate/diff.go:56-96 | the entity's rename, then its fields' operations in new order, then the dropped fields |
| `Diffs.Diff` | engine/migrate/diff.go:19-52 | added and surviving entities in new order, then dropped ones, matched by id |
| `DiffMembers.OwnChanges` | engine/migrate/diff.go:56-137 | the operations a surviving entity ends up with are exactly its changes, stated without loops or order |
| `FingerprintDiff.RenameOnlyDifference` | engine/migrate/diff.go:19-156 | a difference consists of renames if and only if ids, types, required, unique, enum multisets, targets and onDelete are all kept |
| `Materialize.TableDDL` | engine/materialize/materialize.go:53-85 | one column definition per field under its id, and one unique index per unique field, in order |
| `Materialize.Statements` | engine/materialize/materialize.go:30-43 | every guarded CREATE TABLE, then every unique index |
| `FieldMeaning.ColumnMeansField` | engine/materialize/materialize.go:105-181 | a value of the field's type satisfies the field's column if and only if it meets the field's own bounds, values and requiredness |
| `FieldMeaning.CatalogueMeansManifest` | engine/materialize/materialize.go:30-159 | the catalogue has one table per entity and one column per field, which takes exactly what the field may hold, refers where the field refers, and is indexed exactly if the field is unique |
| `FieldMeaning.FreshDatabaseMeansManifest` | engine/materialize/materialize.go:30-43 | so does what the DDL makes of an empty database, where index names are distinct |
| `Materialize.MaterializeIsIdempotent` | engine/store/store.go:126-138 | running the DDL of a manifest whose names SQLite accepts on a database that has its catalogue changes nothing, unique fields that read as the clock included |
| `MaterializeFresh.MaterializeFreshReachesCatalogue` | engine/materialize/materialize.go:30-159 | on an empty database the DDL succeeds if and only if every id can stand where the DDL puts it, no index is named like a table, and no index reads the clock unless an earlier one took its name; the catalogue is then the manifest's exactly when no two unique fields share an index name |
| `MaterializeFresh.DistinctNamesCastNoShadow` | engine/materialize/materialize.go:77-100 | where unique fields have distinct index names, no index reads the clock if and only if no unique field does |
| `MaterializeFresh.IndexNamesClash` | engine/materialize/materialize.go:98-100 | two different unique fields that do share an index name |
| `Naming.ExecutedLawful` | engine/migrate/execute.go:44-144 | a successful migration leaves only names SQL can spell and no index named like a table |
| `Naming.LawfulIsBootable` | engine/materialize/materialize.go:30-85 | a database with the manifest's catalogue shows that SQLite accepts the manifest's names, if and only if every field with a CHECK is an expression (bounds may have moved) |
| `Witnesses.RemapExpr` | engine/migrate/witness.go:174-183 | the CASE expression substitutes simultaneously and once, in whatever order the map is iterated, and is SQL exactly when the map is not empty |
| `Witnesses.RemapIgnoresOrder` | engine/migrate/witness.go:174-183 | any enumeration of the map's pairs means the same |
| `Witnesses.CoerceExpr` | engine/migrate/witness.go:146-162 | an expression that computes the declared coercion, refused exactly for an unknown mode |
| `Witnesses.SelectExpr` | engine/migrate/execute.go:270-312 | refuses exactly when a needed witness is missing or its mode unknown; otherwise the expression computes the declared value on every row |
| `Witnesses.WitnessByField` | engine/migrate/execute.go:340-348 | the last witness attached to each field |
| `Executor.Tx.ExecAll` | engine/migrate/execute.go:130-144 | statements run in order and stop at the first fault |
| `ExecuteLoops.AllNoSql` | engine/migrate/execute.go:48-55 | true exactly when every operation is a rename |
| `ExecuteLoops.NeedsRebuildLoop` | engine/migrate/execute.go:116-128 | true exactly when some operation can only be done by a rebuild |
| `ExecuteLoops.CreateEntityIn` | engine/migrate/execute.go:130-144 | the table and its indexes, or a fault |
| `ExecuteLoops.ApplyNativeOps` | engine/migrate/execute.go:149-196 | the native statements of each operation in turn, or a fault |
| `ExecuteLoops.EnforceCoerceFail` | engine/migrate/execute.go:316-336 | refuses when a field narrowed with coerce=fail holds a value its cast would change |
| `ExecuteLoops.RebuildEntity` | engine/migrate/execute.go:213-265 | temp table, copy, drop and rename amount to replacing the table by one whose rows hold their declared values |
| `ExecuteLoops.ApplyChangeset` | engine/migrate/execute.go:57-108 | creates added entities, changes surviving ones by one path or the other, drops removed ones |
| `ExecuteLoops.Store.Execute` | engine/migrate/execute.go:31-44 | zero SQL for renames; otherwise changeset, fingerprint and foreign-key check in one transaction; on any fault the database is as it was |
| `References.ReferencesDecide` | engine/store/store.go:300-351 | a changeset whose statements run is committed if and only if every reference of the new manifest that a row then holds names a row that exists, and the commit succeeds |
| `References.MigrationKeepsReferences` | engine/migrate/witness.go:62-65 | a migration that succeeds leaves no reference dangling, whichever path each entity takes |
| `References.DanglingReferenceFails` | engine/store/store.go:335-351 | one row whose text would be left naming a row its new target does not have fails the migration, whatever witnesses are attached |
| `References.MigrationKeepsRowsOk` | engine/migrate/execute.go:57-108 | every row a migration leaves satisfies its columns' NOT NULL and CHECKs and the unique indexes, whatever the changeset |
| `References.MigrationStaysSound` | engine/migrate/execute.go:31-108 | what the data API keeps of every row, a migration that moves no bounds natively keeps too |
| `Views.NativeOpTouches` | engine/migrate/execute.go:149-196 | a native operation that succeeds changes its own column and index as declared, no other column, and no row's id or timestamps |
| `Views.NativeOpsFold` | engine/migrate/execute.go:149-196 | a run of native operations acts on each column separately |
| `NativePath.NativeOutcome` | engine/migrate/execute.go:149-196 | what a difference run natively leaves of every column, seen from the two field lists |
| `Migration.RebuildOutcome` | engine/migrate/execute.go:213-265 | what a successful rebuild leaves: the new columns and indexes, the declared rows, every other table untouched |
| `WholeMigration.ApplyOutcome` | engine/migrate/execute.go:57-108 | after a successful changeset every new entity has a fresh, rebuilt or natively changed table, and no other table exists |
| `Reach.RenamesDoNothing` | engine/migrate/execute.go:31-55 | skipping SQL for a rename-only changeset agrees with running it |
| `Reach.MigrationReachesTarget` | engine/migrate/execute.go:57-108 | a successful Execute of the difference leaves the new manifest's catalogue; its min/max CHECKs too if and only if every surviving entity was rebuilt or kept its bounds |
| `FastSlow.NativeRefinesRebuild` | engine/migrate/execute.go:116-312 | where no rebuild is needed and the native path succeeds, the rebuild succeeds if and only if every surviving column is an expression; if none reads as the clock it leaves the same database but for where the table's foreign keys are declared |
| `FastSlow.UnreadableIsRefused` | engine/migrate/execute.go:229-245 | a surviving column that is no expression fails every rebuild of its entity |
| `PathsAgree.PathsSucceedTogether` | engine/migrate/execute.go:116-312 | where no rebuild is needed, the native path succeeds on readable columns if and only if a rebuild would and no dropped field is unique or a reference the table declares |
| `Lossless.SafeIsLossless` | engine/migrate/classify.go:16-75 | if every operation is safe and no witness is attached, every old row and value of an entity not rebuilt through a clock column can be recovered from the result, new columns hold the default or null, and new tables are empty |
| `Meaning.RebuildMeans` | engine/migrate/execute.go:270-336 | after a successful rebuild the ids and timestamps are unchanged, each value means what its witness declares (verbatim, filled where null, remapped, truncated, rounded), or the same of the time where the column reads as the clock, and an added field holds its default, its backfill or null |
| `Meaning.CoerceFailRefuses` | engine/migrate/execute.go:316-336 | coerce=fail refuses the rebuild if a single value would change |
| `Meaning.CoerceFailRefusesOnlyLoss` | engine/migrate/execute.go:316-336 | a rebuild refused for loss has a row that a field narrowed with coerce=fail would change |
| `Meaning.LossIsOfInformation` | engine/migrate/witness.go:167-172 | a real is lossy as an integer exactly when it has a fraction, text exactly when it spells no whole number, and null never |
| `Meaning.LiteralDenotes` | engine/migrate/witness.go:110-141 | a backfill or default means itself: the same number (without its fraction in an integer field, where JSON brings a float), truth value or text |
| `Gate.GateCoversNonDestructive` | engine/migrate/apply.go:70-82 | nothing that needs a witness slips past a changeset judged free of destructive operations |
| `Gate.GateIsComplete` | engine/migrate/witness.go:67-101 | once no witness is missing and every mode is known, neither of Execute's two refusals can occur |
| `Gate.NarrowedAndTightenedNeverPasses` | engine/migrate/witness.go:67-101 | a field narrowed and tightened at once needs two kinds of witness and can declare one, so it never passes |
| `Gate.SharedIdSharesWitness` | engine/migrate/apply.go:60-64 | operations on one field id of different entities carry the same witness; if they need two kinds the gate is closed |
| `Findings.DropSucceedsUnlessInUse` | engine/migrate/execute.go:177-180 | a native DROP COLUMN succeeds if and only if the field is neither unique nor a reference the table declares |
| `Findings.UndroppableFieldNeverDrops` | engine/migrate/execute.go:149-196 | dropping a unique field, or a reference the table declares, of an entity that nothing else forces to be rebuilt always fails |
| `Findings.AddedFieldDrops` | engine/migrate/execute.go:155-180 | a field that is not unique, a reference included, can be added natively and dropped again, leaving the database as it was |
| `Findings.EmptyRemapNeverRuns` | engine/migrate/witness.go:174-183 | an empty remap passes the gate and then always fails the rebuild |
| `Findings.TakenTempNameBlocksRebuild` | engine/migrate/execute.go:213-265 | an entity named like another's temporary table blocks every rebuild of that other |
| `Remaps.RemapsOnSafeChanges` | engine/migrate/execute.go:287-300 | when every operation is safe and only remaps are attached, the old rows can be told from the new database if and only if no rebuild of a table with rows reads the clock for a column or merges, by a remap, a value some row holds with another old value |
| `Remaps.InjectiveRemapsAreRecoverable` | engine/migrate/execute.go:287-300 | remaps that merge no two old values lose nothing, whatever the old rows were, where no rebuild reads the clock |
| `Remaps.RemapOutsideIsRefused` | engine/migrate/execute.go:239-245 | a remap that takes a held value out of the new value set fails the migration |
| `Remaps.ClockColumnIsOverwritten` | engine/migrate/execute.go:239-312 | after any successful migration that rebuilds the entity, a field of unchanged type and without a remap that reads as the clock holds the migration's time in every row |
| `Confinement.ExecuteForgets` | engine/migrate/execute.go:44-128 | a migration cannot tell apart two databases that differ in rows which their table's own rebuild makes the same of |
| `Tightening.WidenedAndTightenedNeedsNoNulls` | engine/migrate/execute.go:287-312 | for an entity whose only change is a field widened and tightened, the backfill opens the gate and the rebuild, where its columns are expressions, succeeds if and only if no row holds null in the field or the field reads as the clock |
| `Defaults.DefaultsAgree` | engine/domain/coerce.go:137-150 | the default the DDL gives existing rows is the one new rows get if and only if it is not a datetime with another canonical form |
| `Defaults.AddedDefaultReadsAlike` | engine/migrate/execute.go:155-175 | after any successful migration an old row and a row created without an added field read the same default if and only if it is not a datetime with another canonical form |
| `Fingerprints.Fingerprint` | engine/schema/fingerprint.go:37-66 | the builder ends up holding the canonical text: sorted entities, sorted fields, one line each |
| `FingerprintText.FieldLineInjective` | engine/schema/fingerprint.go:47-60 | two fields with the same line agree in everything the line covers |
| `FingerprintSchema.CanonicalTextDecidesSchema` | engine/schema/fingerprint.go:37-66 | equal texts if and only if equal schemas, up to the comma-joined enum values, under any reordering and renaming |
| `FingerprintDiff.CanonicalTextDecidesDefinitions` | engine/schema/fingerprint.go:37-66 | for comma- and newline-free enum values, equal texts if and only if every definition, bounds included, agrees |
| `FingerprintDiff.JoinedValuesDecide` | engine/schema/fingerprint.go:52-56 | comma-free values are determined, as a multiset, by their sorted join |
| `FingerprintDiff.CommasCollide` | engine/schema/fingerprint.go:52-56 | with commas they are not: two different enums print alike |
| `FingerprintDiff.RenamesKeepText` | engine/migrate/execute.go:24-30 | renames that keep every bound leave the text alone, whatever the enum values contain |
| `FingerprintDiff.DiffAgreesWithFingerprint` | engine/migrate/execute.go:31-55 | the texts are equal if and only if the difference is renames only and surviving fields keep their bounds |
| `HostLoops.DiffColumnSets` | engine/store/store.go:215-235 | exactly the expected columns that are absent, and exactly the actual ones that are unexpected |
| `HostLoops.ExpectedPhysicalColumns` | engine/store/store.go:205-212 | the platform's three columns and one per field id |
| `HostLoops.VerifySchema` | engine/store/store.go:153-175 | accepts exactly when every entity has a table with exactly those columns |
| `HostLoops.ApplyDdl` | engine/store/store.go:131-138 | statements commit one by one; the first fault leaves what ran before it |
| `HostLoops.OpenDatabase` | engine/registry/boot.go:103-132 | DDL, column check and fingerprint check of one app, with what each leaves behind |
| `ServedColumns.BootServesExactly` | engine/registry/boot.go:103-132 | a database is served if and only if its DDL runs through, each table an entity already has holds exactly the platform's columns and one per field id, and the recorded fingerprint is none or the manifest's |
| `ServedColumns.BootedDatabase` | engine/registry/boot.go:103-162 | no table or row that was there changes; a served database has its tables and the manifest's fingerprint; a refused one has the fingerprint it had, or none |
| `ServedColumns.MismatchIsRefused` | engine/store/store.go:153-175 | a table with a missing or an extra column is never adopted, and no fingerprint is recorded |
| `HostLoops.Prune` | engine/migrate/snapshot.go:65-82 | keeps the most recent snapshots, or all of them when retention is disabled |
| `HostLoops.Host.Load` | engine/registry/boot.go:60-140 | boots the directories in sorted order from an empty registry, with one report each |
| `HostLoops.Host.LoadDir` | engine/registry/boot.go:70-137 | one iteration of that loop |
| `ServedColumns.ServedHaveTheirColumns` | engine/registry/boot.go:60-140 | whatever a boot finds, each app it serves has a table per entity with exactly its columns, and its fingerprint on record |
| `ServedColumns.ReportsTell` | engine/registry/boot.go:17-140 | each directory's report: created exactly if the app had no database, without a fault exactly if it is served |
| `HostLoops.Host.Apply` | engine/migrate/apply.go:43-114 | the world and the outcome of an apply, for every way the file system and SQLite may fail |
| `Confirmation.ApplyAsks` | engine/migrate/apply.go:43-92 | which answer apply gives, read off the manifests: it runs unasked what takes nothing away, and otherwise asks first for the confirmation, then the witnesses, then takes the snapshot |
| `Confirmation.SnapshotsOfApply` | engine/migrate/apply.go:85-113 | which snapshots an apply leaves: one more, of the database as it was, exactly when something is taken away, confirmed and witnessed; the newest five after a promotion; every other one as it was |
| `HostLoops.Host.Run` | engine/migrate/apply.go:94-113 | execute, then promote and re-register, or undo |
| `HostLoops.Host.Undo` | engine/migrate/apply.go:119-133 | nothing after a rollback without a snapshot; otherwise what each step of the restore leaves |
| `Runs.ApplyIsAllOrNothing` | engine/migrate/apply.go:43-114 | unless promoted, failed to promote, or torn while restoring, nothing but snapshots changed; other apps never change |
| `Runs.DestructiveIsGuarded` | engine/migrate/apply.go:66-92 | no destructive operation takes effect unconfirmed, unwitnessed, or without the newest snapshot holding the database as it was |
| `WholeRuns.RunsKeep` | engine/migrate/apply.go:43-114 | over every run from a first boot that does not break the app, registered schema, manifest on disk, catalogue and recorded fingerprint agree, and what is registered has names SQLite accepts |
| `WholeRuns.BootKeepsDb` | engine/registry/boot.go:113-132 | boot accepts, and changes nothing in, a database in step with its manifest |
| `WholeRuns.BootRefusesNames` | engine/registry/boot.go:97-162 | whatever its database, an app whose names SQLite does not accept is never served |
| `WholeRuns.BootRefusesClocks` | engine/registry/boot.go:97-162 | nor is one whose unique field reads as the clock, on any database its boots or migrations can have left, where index names are distinct |
| `WholeRuns.PromotionInStep` | engine/migrate/apply.go:94-110 | a promotion that does not break leaves the database in step with the new manifest |
| `Restarts.BootDecides` | engine/registry/boot.go:70-137 | a boot decides on each app by its own manifest and database alone |
| `Restarts.RestartServes` | engine/registry/boot.go:60-162 | after any such run a restart serves the manifest on disk if and only if SQLite accepts its names, and changes nothing in its database |
| `Restarts.DriftIsRefused` | engine/registry/boot.go:149-162 | no boot serves a manifest whose fingerprint is not the one recorded |
| `Restarts.PromotedManifestBoots` | engine/registry/boot.go:60-162 | the boot after a promotion serves it if and only if the changeset was not one that only renames but moves bounds, and SQLite accepts the new manifest's names |
| `Restarts.FailedPromotionIsDetected` | engine/migrate/apply.go:103-108 | after a manifest write fails, the old manifest is served if and only if the changeset ran no SQL and the file is untouched |
| `Restarts.BoundsNeverMoveAlone` | engine/migrate/apply.go:66-68 | a change of bounds alone is reported as no change, and refused at boot when edited by hand |
| `Validation.ValidateDefault` | engine/validate/semantic.go:301-355 | no error exactly when the default satisfies the field's own constraints |
| `Validation.ValidateField` | engine/validate/semantic.go:270-296 | no error exactly when bounds, target, enum values and default are in order |
| `Validation.ValidateStep` | engine/validate/semantic.go:127-216 | no error exactly when entity, operation, parts, names, references and id of a step are in order |
| `Validation.ValidateTool` | engine/validate/semantic.go:109-218 | no error exactly when parameters are distinct and checked and every step is in order given the steps before it |
| `Validation.Semantic` | engine/validate/semantic.go:13-98 | no error exactly when the manifest's entities, fields and tools are semantically valid |
| `Validation.CheckedIsValid` | engine/validate/semantic.go:13-98 | a parsed manifest without errors is valid in the sense the engine's theorems need, and conversely |
| `FieldMeaning.DefaultIsChecked` | engine/validate/semantic.go:301-355 | a default is accepted exactly if the field may hold it |
| `FieldMeaning.BoundsLeaveRoom` | engine/validate/semantic.go:270-275 | bounds are accepted exactly if they leave room for a value |
| `RowCodec.ScanRow` | engine/store/store.go:669-683 | reads every selected column of a row by its name |
| `RowCodec.Bindings` | engine/store/store.go:412-429 | binds each written name to its field's physical column, and nothing else |
| `RowCodec.BoundIsWritten` | engine/store/store.go:536-559 | writing through physical columns writes each field by its own name and leaves the others |
| `RowCodec.DecodeEncode` | engine/store/store.go:652-701 | decode undoes encode through the column's affinity, on values of the field's type |
| `RowCodec.InsertReadsBack` | engine/store/store.go:412-449 | an inserted row reads back as written, and null elsewhere |
| `RowCodec.RenameRelabels` | engine/store/store.go:588-618 | reading through renamed fields, swapped names included, only relabels the keys |
| `RowCodec.RenamesMoveNoData` | engine/migrate/execute.go:31-55 | a rename-only changeset leaves the database untouched, and every row reads as before under the new names |
| `Listing.BuildOrderBy` | engine/store/store.go:637-648 | the caller's terms on physical columns, then the id |
| `Listing.BuildWhere` | engine/store/store.go:620-631 | one clause per filter, on its physical column |
| `Listing.ListWith` | engine/store/store.go:496-527 | the requested page of the ordered matches, and the number of all matches |
| `ListOrder.ListIsInRequestedOrder` | engine/store/store.go:633-648 | of two rows of a list, at the first sort on whose field they differ the earlier holds the smaller value if it ascends and the larger if it descends; rows equal on every sort come by ascending id |
| `ListOrder.FilterComparesValues` | engine/store/store.go:620-631 | each operator admits a row exactly when its field's value compares so with the argument, and null never |
| `ListOrder.ListHoldsWhatFiltersAdmit` | engine/store/store.go:496-527 | a list holds each row that every filter admits, once, and no other |
| `Listing.OrderIsStrictAndTotal` | engine/store/store.go:633-648 | with the id appended, of two rows exactly one comes first, however the keys tie |
| `Listing.ListIgnoresPhysicalOrder` | engine/store/store.go:496-527 | the output does not depend on how the rows are stored |
| `Listing.FullListIsExact` | engine/store/store.go:496-527 | the list holds exactly the matching rows, each once |
| `Listing.PagesCoverTheList` | engine/store/store.go:496-527 | consecutive pages of any positive size concatenate to the full list, even if the physical order changes between them |
| `DomainOps.CoerceFields` | engine/domain/operations.go:85-118 | the values and every issue of a body, field by field |
| `DomainOps.RowTx.CreateIn` | engine/domain/operations.go:125-141 | the new database and the stored row, or the error and no change |
| `DomainOps.RowTx.UpdateIn` | engine/domain/operations.go:208-231 | only the fields present change, or the error and no change |
| `DomainOps.RowTx.DeleteIn` | engine/domain/operations.go:244-253 | the row goes, with its foreign-key actions, or the error and no change |
| `SentValues.CoercionIsExact` | engine/domain/coerce.go:29-135 | exactly which JSON a field of each type takes, and that the value is the one sent: the same string, number, boolean, enum value or id, or the datetime's canonical form |
| `SentValues.IssuesAreExact` | engine/domain/operations.go:85-118 | the issues of a body are exactly what is wrong with its fields |
| `SentValues.CreateKeepsWhatWasSent` | engine/domain/operations.go:125-141 | the reply, and any later read, holds each field as sent, or its default, or null; nothing but the one row changes |
| `SentValues.UpdateKeepsWhatWasSent` | engine/domain/operations.go:208-231 | each field sent reads as sent, every other field, the id and the creation time as before; nothing but the one row changes |
| `WriteOutcomes.CreateOutcome` | engine/domain/operations.go:125-141 | a body with something wrong is refused with exactly what is wrong; any other creates its row unless its id or a unique field's value is taken |
| `WriteOutcomes.UpdateOutcome` | engine/domain/operations.go:208-231 | an absent row is reported; then what is wrong with the body; otherwise the row changes unless a unique field's value is another row's |
| `WriteOutcomes.DeleteOutcome` | engine/domain/operations.go:244-253 | an absent row is reported, a present one is gone, and a foreign key in the way leaves everything |
| `WriteOutcomes.GetOutcome` | engine/domain/operations.go:154-163 | an absent row is reported; a present one reads as its id, its times and what each field's column holds |
| `DomainSound.CoercedFits` | engine/domain/coerce.go:29-135 | a coerced value satisfies its column's type, NOT NULL, CHECKs and reference |
| `DomainSound.DefaultFits` | engine/domain/coerce.go:141-150 | so does the stored form of a validated default |
| `DomainSound.CreatedRowFits` | engine/domain/operations.go:85-141 | a body that create accepts makes a row that meets every constraint of the DDL |
| `DomainSound.UpdatedRowFits` | engine/domain/operations.go:208-231 | a partial body that update accepts keeps every constraint of the row |
| `DomainSound.CreateOnlyConflicts` | engine/domain/operations.go:125-141 | once coercion passes, only a duplicate can refuse a create |
| `DomainSound.UpdateOnlyConflicts` | engine/domain/operations.go:208-231 | only validation, an absent row or a duplicate can refuse an update |
| `DomainSound.RowsStaySound` | engine/materialize/materialize.go:105-181 | over any sequence of creates, updates and deletes every row meets every constraint |
| `Tools.ResolveSet` | engine/tools/execute.go:187-199 | every template resolved or reported, in whatever order the map is iterated |
| `Tools.ResolveFilters` | engine/tools/execute.go:204-221 | one equality filter per template, or its issue |
| `Tools.ResolveParams` | engine/tools/execute.go:143-183 | a value for every declared parameter, or every issue |
| `Tools.RunStep` | engine/tools/execute.go:82-136 | one step against the transaction |
| `Tools.AppStore.Execute` | engine/tools/execute.go:36-79 | the steps in one transaction: their composition if everything succeeds, and no change otherwise |
| `DataFlow.CallFlows` | engine/tools/execute.go:36-79 | a call that succeeds ran the tool it names with each parameter as sent, and every step did what its templates say: each field set holds the parameter, the literal or the earlier step's value its template names, each row is the one named, each list holds the rows that read so, and the result is the last step's |
| `DataFlow.RunFlows` | engine/tools/execute.go:60-135 | the same of any step of any checked run, in terms of the results the run reports |
| `DataFlow.CreateStepFills` | engine/tools/execute.go:187-199 | a create step's row holds what its templates name, through JSON and coercion, and every other field its default or null |
| `DataFlow.UpdateStepChanges` | engine/tools/execute.go:82-136 | an update step changes the row its template names, in the fields it sets and no other |
| `DataFlow.ListedAnswers` | engine/tools/execute.go:204-221 | a list step answers with how many rows read like its values and the first fifty by id |
| `DataFlow.AvailableIsUsable` | engine/tools/execute.go:223-267 | a template whose value is at hand always resolves, and names a row exactly if it is a string or null |
| `DataFlow.ArgumentsAreExact` | engine/tools/execute.go:143-183 | arguments are refused with exactly what is wrong with them, undeclared names included; otherwise each parameter holds what was sent, its default, or null |
| `DataFlow.FailureIsTheFirst` | engine/tools/execute.go:60-73 | a run that fails reports the first step that fails, by its place, with that step's own error |
| `ToolSound.CheckedRefFailsOnlyOnField` | engine/tools/execute.go:238-267 | a checked template fails if and only if it names a field the earlier step's result does not have |
| `ToolSound.CheckedStepsResolve` | engine/validate/semantic.go:109-218 | while a checked run succeeds the results are those of the ids the checker collected, and it never fails on a reference the checker rules out |
| `ToolSound.ResultsHaveDeclaredKeys` | engine/tools/execute.go:60-73 | the fields of every step's result are known before anything runs |
| `ToolSound.CheckedToolResolves` | engine/tools/execute.go:36-79 | the same for a whole call of any tool of a valid manifest |
| `ToolSound.StepsAreTheirCalls` | engine/tools/execute.go:60-73 | the steps leave what the same direct calls, one for each step, leave when made one by one |
| `ToolSound.ResultsAreReplies` | engine/tools/execute.go:60-135 | each step's result is what its direct call would have answered at that point of the run |
| `ToolSound.ToolIsAtomic` | engine/tools/execute.go:49-78 | an error anywhere leaves the database as it was; otherwise it is what direct calls leave, one for each step, reads and lists included, each on an entity that allows its operation |
| `ToolSound.ToolsKeepRowsSound` | engine/tools/execute.go:36-79 | running a tool keeps every row within the DDL's constraints |
| `Literals.EnumLiterals` | engine/materialize/materialize.go:206-212 | the quoted values, separated by a comma and a blank |
| `Literals.LiteralReadsBack` | engine/migrate/witness.go:139-140 | any string's literal reads back as that string and ends where it was ended |
| `Literals.EnumLiteralsReadBack` | engine/materialize/materialize.go:206-212 | the values of an enum CHECK read back exactly as declared |
| `Literals.CaseReadsBack` | engine/migrate/witness.go:174-183 | the pairs of a remap read back from its CASE expression exactly as declared |
| `CompileCache.EntriesStay` | engine/sandbox/sandbox.go:120-151 | over every interleaving an entry is never replaced or removed |
| `CompileCache.SuccessfulCallsAgree` | engine/sandbox/sandbox.go:120-151 | all successful calls for a path return the same module |
| `CompileCache.Sandbox.Lookup` | engine/sandbox/sandbox.go:126-131 | the first locked section |
| `CompileCache.Sandbox.PublishOrDiscard` | engine/sandbox/sandbox.go:142-150 | the second locked section: keeps an existing entry, otherwise publishes |
| `Examples.IndexNamedLikeTable` | engine/materialize/materialize.go:98-100 | entity `a` with unique field `b` beside entity `ux_a_b`: accepted, and never boots |
| `Examples.ClashingIndexNames` | engine/materialize/materialize.go:98-100 | unique field `c` of entity `a_b` beside unique field `b_c` of entity `a`: accepted, the DDL runs through, and the catalogue lacks an index |
| `Examples.KeywordIds` | engine/manifest.schema.json:132-139 | entity `order` with field `group`: accepted, and never boots where either is a reserved word |
| `Examples.InternalId` | engine/manifest.schema.json:132-139 | entity `sqlite_x`: accepted, and never boots |
| `Examples.MovedBoundAlone` | engine/migrate/diff.go:101-137 | a new maximum alone: reported as no change, and refused by the next boot if edited in by hand |
| `Examples.MovedBoundAndRename` | engine/migrate/execute.go:27-46 | a new maximum beside a rename: promoted, and refused by the next boot |
| `Examples.StaleCheck` | engine/migrate/execute.go:149-175 | a new maximum beside an added field: promoted, and the table keeps the old CHECKs |
| `Examples.DroppedUniqueField` | engine/migrate/execute.go:177-180 | dropping a unique field: confirmed, through the gate, and rolled back |
| `Examples.AddedReferenceIsDropped` | engine/migrate/execute.go:155-180 | a reference added by one migration: dropped by the next |
| `Examples.BootedReferenceIsNotDropped` | engine/migrate/execute.go:177-180 | the same reference declared at boot: its drop is rolled back |
| `Examples.EmptyRemapFails` | engine/migrate/witness.go:174-183 | a remap without pairs on an enum that only grows: through the gate, and rolled back |
| `Examples.MergingRemap` | engine/migrate/execute.go:287-300 | a remap of `x` to `y` on an enum that only grows: succeeds on every old database and is not recoverable if a row holds `x` |
| `Examples.EscapingRemap` | engine/migrate/execute.go:239-245 | a remap of `x` to a value outside the enum: through the gate, and fails if a row holds `x` |
| `Examples.MergedOutsideIsRecoverable` | engine/migrate/execute.go:239-300 | a remap of `x` and `y` to one value outside the enum: not injective, yet every old database that migrates is recoverable |
| `Examples.TakenTempName` | engine/migrate/execute.go:221-228 | entities `x` and `mig_x`: tightening a field of `x` passes the gate and is rolled back |
| `Examples.UnusedBackfill` | engine/migrate/execute.go:287-312 | an optional integer made a required real, with a backfill: through the gate, and succeeds if and only if no row holds null |
| `Examples.NarrowedAndTightened` | engine/migrate/witness.go:67-101 | an optional real made a required integer: no witness opens the gate |
| `Examples.CommaIsNotNoticed` | engine/schema/fingerprint.go:49-56 | enum value `a,b` split by hand into `a` and `b`: boot changes nothing, serves it, and the database still has the old CHECK |
| `WordExamples.ClockIndex` | engine/materialize/materialize.go:77-85 | unique field `current_date`: accepted, and never boots |
| `WordExamples.IfIsNoTable` | engine/materialize/materialize.go:53-76 | `if` as an entity id: accepted, and never boots; as a field id it boots |
| `WordExamples.CheckedCast` | engine/materialize/materialize.go:105-159 | boolean field `cast`: accepted, and never boots |
| `WordExamples.CastIsNeverRebuilt` | engine/migrate/execute.go:229-245 | text field `cast`: boots, and a change of another field that needs a rebuild passes the gate and is rolled back |
| `WordExamples.SafeChangeWritesTheDate` | engine/migrate/execute.go:229-312 | text field `current_date` beside an integer that becomes a real: safe, succeeds on every old database, and every row's text is the date afterwards |
| `WordExamples.SharedFieldId` | engine/migrate/apply.go:60-64 | field `b` of two entities, one to be filled and one to be truncated: either change alone passes the gate, both together pass with no witnesses |
| `RowExamples.DayReadsTwoWays` | engine/domain/coerce.go:137-150 | an added datetime with a default: migrates every old database, and old rows read differently from new ones |
| `RowExamples.ReferenceToAbsentField` | engine/tools/execute.go:236-268 | a tool that copies a field its earlier step's result lacks: accepted, and every call fails at that step |
| `PromiseExamples.RetargetingIsUndone` | engine/store/store.go:335-351 | a reference pointed from `a` to `c` while a row names a row only `a` has: through the gate, confirmed, and undone |
| `PromiseExamples.OldTableIsRefused` | engine/registry/boot.go:113-125 | a table with column `b`, nothing recorded, and a manifest with `b` and `c`: not served, and nothing recorded |
| `PromiseExamples.BooleanIsKept` | engine/domain/coerce.go:84-89 | a boolean sent as true, or false, is answered so and stored as 1, or 0 |
| `PromiseExamples.ParameterIsStored` | engine/tools/execute.go:247-252 | a tool that creates a row from its parameter stores and answers the text it was called with |
| `PromiseExamples.RanksAreSorted` | engine/store/store.go:637-648 | rows of rank 1 and 2 come in that order ascending, and in the other descending |

## Left out

- The SHA-256 digest of the canonical text: the text itself is recorded and compared, which is the same
  as long as the digest has no collisions.
- Reading manifests as JSON and the structural JSON Schema layer: documents arrive parsed, and what that
  layer guarantees is `Validation.Parsed`.
- HTTP and MCP adapters, CORS, broker, command line, seed loading, consent, and query-string parsing of
  lists: plumbing around the operations modelled here.
- Functions (WebAssembly modules) and their capabilities, apart from the compile cache; wazero itself is
  not part of this model.
- Two manifests that declare the same app id share one database; the run invariant is stated for apps
  declared once (`WholeRuns.DeclaredOnce`), and hand edits of manifests during a run are not events.
- Opening a database, creating its directory, reading a manifest and recording a first fingerprint do
  not fail during boot in this model.
- Snapshot file names, checkpoints and fsync: snapshots are copies of the abstract database in the order
  taken, and pruning removes all of the excess or nothing.
- Foreign-key actions of a DELETE (cascade, set null, restrict) are a parameter of `DomainOps.Env`;
  `DomainSound.RowsStaySound` and the theorems on tool runs assume what SQLite documents of them
  (`DomainSound.FaithfulDelete`), and the latter that a scan lists a table's rows (`DataFlow.FaithfulScans`).
- DataFlow.ListedAnswers: assumes each value is of its column's kind; a filter that compares, say, a number
  with a text column follows SQLite's affinity rules, which `Listing.Satisfied` models.
- ListOrder.ListIsInRequestedOrder: is about columns that are expressions and rows that satisfy their CHECKs,
  as every row the engine writes does.
- Leftover DEFAULT clauses of columns added natively: a later insert that omits such a column stores
  null in this model.
- Columns that read as the clock or are no expression, in the row layer: SQLite's SELECT, WHERE and ORDER BY
  of such a column read the time or fail, while `RowCodec`, `Listing` and `DomainOps` read the column.
  `DomainSound.Sound` leaves out entities with such fields.
- An optional last field `constraint` without CHECK: SQLite runs the CREATE TABLE and makes no such column, and
  the column check of boot then refuses the app; in this model the statement itself is refused, so that it is
  not served either way.
- SQLite's limits on the number of columns and the length of a statement.
- After a restore that fails the engine leaves the app's store closed, so that every later apply fails until
  the next boot; in this model a later apply may also succeed, and what is proved holds of both.
- SQLite's length() stops at U+0000, and its text comparison is modelled by code point order.
- int64 and float64 rounding beyond 2^53, infinities and negative zero.
- Error messages and how errors are rendered: errors are kinds, with the field and problem of each issue.
- The lock of the registry and concurrent requests on one store: a store has one connection and
  operations are serial.
- Infeasible errors the code itself marks as unreachable, such as an unknown reference target while
  rendering DDL after validation.
- Validation.Semantic: omits the checks of functions, that their ids and names are unique and their
  capabilities declared (engine/validate/semantic.go:60-98), because functions are not modelled.
- Literals.CaseReadsBack: reads back the arms of the CASE expression only; the rest of the SQL text the
  engine assembles from validated identifiers is represented by the statements of `Sql.Stmt`.
- Restarts.PromotedManifestBoots: assumes enum values without comma or newline and bounds that print
  apart, because the refusal half rests on the fingerprint telling the two manifests apart.
- Restarts.FailedPromotionIsDetected: makes the same assumption for the same reason.
- Reach.MigrationReachesTarget: assumes that no two unique fields of the two manifests share an index
  name; with such a clash CREATE UNIQUE INDEX IF NOT EXISTS can skip an index.
- FastSlow.NativeRefinesRebuild: assumes kept bounds, no remap witness and no table named like the
  temporary one, and for equality no column that reads as the clock, the four things in which the paths differ by design, and a database whose names SQLite
  accepted, as every database the engine made is (`Naming.Lawful`).
- Remaps.RemapsOnSafeChanges: is about old databases whose CHECKs are the old manifest's, bounds
  included; with stale bounds a value the manifest allows may not be one the column can hold.
- FingerprintDiff.DiffAgreesWithFingerprint: assumes that the numbers used as bounds print apart and
  without blanks, which Go's shortest rendering of a float64 does.
