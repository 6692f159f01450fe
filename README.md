# focapd-plastics core, in Dafny

This project models the data-processing core of *focapd-plastics*. That core builds a relational database of plastic additives, chemical activities, industry sectors and end-of-life records from the EPA Toxics Release Inventory (TRI). It enriches the database with NAICS industry codes taken from two web APIs. The model covers:

- **Entities** (`data_models.dfy`, module `DataModels`):
  - the six ORM classes as datatypes, with the nullability and defaults of their columns;
  - `Model(**kwargs)` construction;
  - the row encoding of additives and activities;
  - the end-of-life / release-type exclusivity of a record;
  - the record / chemical-activity association table.
- **Schema** (`schema.dfy`, module `Schema`): the fifteen table names, the column names, and the column values a row holds (NULL, integer, text, boolean, real). It also holds the errors the database layer raises.
- **Initial migration** (`migration.dfy`, module `Migration`):
  - the UNIQUE and foreign-key constraints of each table;
  - the creation order of `upgrade` and the drop order of `downgrade`;
  - a `Database` class.
  - In the class, `create_table` is refused when a table exists already or a foreign key points at a missing table. `drop_table` is refused when the table is missing or another existing table still points at it.
- **Loader** (`load.dfy`, module `Load`):
  - a `Session` class, whose state maps each mapped class to its rows;
  - the `TriDataLoader` class with `element_exists`, `get_or_create`, `create_element`, `load_chemical_activity` and `load_plastic_additives`;
  - pure specification functions (`One`, `ExistsIn`, `CreateIn`, `GetOrCreateIn`, `ActivityStep`, `AdditiveStep`, `Run`) that the methods are proved against;
  - the lemmas about those functions: tables stay valid, a load is idempotent, and parent references point backwards.
- **Configuration** (`config.dfy`, module `Config`): the configuration dataclasses with their defaults, and the key/value view of an entry that the loader reads.
- **Helpers** (`utils.dfy`, module `Utils`):
  - the mass conversion factors and `from_string`;
  - `generate_data_file_path` with `posixpath.join` semantics.
- **Web clients** (`queries.dfy`, `frs_api_queries.dfy`, `naics_api_queries.dfy`):
  - first-appearance deduplication (`Series.unique`);
  - `str.format` substitution of one field;
  - URL construction and reply-to-row mapping;
  - the `NaicsDataFetcher` object and its API-key check.
  - Each HTTP request is a parameter `server`, a function from URL to `(status, payload)`. The process environment is a parameter `env`.

`wrappers.dfy` holds `Option` and `Result`.

Query and insert semantics follow SQLAlchemy on SQLite:

- `filter_by(c=None)` matches NULL.
- `.one()` raises NoResultFound when nothing matches and MultipleResultsFound when several rows match.
- A new row's id is one more than the largest id in use (1 for an empty table).
- A commit is refused (IntegrityError) when a NOT NULL column would hold NULL or a UNIQUE column a duplicate.
- NOT NULL comes from the ORM columns. UNIQUE comes from the migration, because the ORM classes declare none.
- Foreign keys are not checked on insert.
- When an iteration of a loader raises, the rows committed before it stay in the table. The loader's outcome is therefore the table together with the exception (`Load.Outcome`).

Where the code and its documentation or its sibling modules disagree, the model follows the code:

- `config.py` calls the additive field `plastics_additives` (`Config.MainConfig.plasticsAdditives`), while `load_plastic_additives` reads `config.plastic_additives.tri_chem_id`.
  - `PlasticAdditive.tri_chem_id` is typed as a list of strings, yet the loader indexes each element with `["CASRN"]` and `["name"]`.
  - The model gives the additive loader its entries as key/value maps (`Load.LoaderConfig.plasticAdditives`). A missing key raises KeyError.
- `NeededColumn` declares neither `depends_on` nor `is_general_info` (`Config.NeededColumnEntry`), while `load_chemical_activity` reads both. The loader therefore works on key/value entries (`Config.Entry`).
  - `Load.TypedColumnsAreLoaded` shows that entries built from `NeededColumn` are all loaded.
  - `Load.TypedColumnsHaveNoParents` shows that such entries create no parent links.
- `from_string` lower-cases its argument but compares it with capitalised names, so it rejects every input (see Findings).

## Model

| member | source | states |
|---|---|---|
| DataModels.Construct | src/data_processing/data_models.py:74-279 | `Model(**kwargs)` over the attribute columns (all but `id`): it fails exactly when a keyword is not one of them, and reports the offending keywords. Otherwise the row has exactly those columns: the given values, and each column's default elsewhere. |
| DataModels.AdditiveRoundTrip | src/data_processing/data_models.py:74-90 | An additive decodes back from its row, and a row decodes only to the additive that encodes to it. |
| DataModels.ActivityRoundTrip | src/data_processing/data_models.py:118-146 | The same two directions for chemical activities, with a nullable description and parent. |
| DataModels.EndOfLifeDefaults | src/data_processing/data_models.py:152-213 | An end-of-life activity built from its name and management type gets all nine flags false (`default=False`). The row reads back as that entity. |
| DataModels.ReleaseTypeDefault | src/data_processing/data_models.py:219-236 | A release type built from its name is off-site by default, and no other column is filled in. |
| DataModels.RecordNullability | src/data_processing/data_models.py:242-279 | The NOT NULL columns of a record are exactly the additive, the generator sector and the amount. |
| DataModels.SubActivities | src/data_processing/data_models.py:135-146 | The `sub_activities` backref holds exactly the activities whose parent id is the given one. |
| DataModels.TargetOf | src/data_processing/data_models.py:24-27 | A record's target (end of life, release or neither) is defined exactly when it does not reference both. It reads back the two foreign-key columns. |
| DataModels.TargetRoundTrip | src/data_processing/data_models.py:36-37 | A target stored in the two nullable columns gives a valid record, and reads back as the same target. |
| DataModels.Link | src/data_processing/data_models.py:58-71 | Inserting an association pair fails (IntegrityError) exactly when the pair exists already, because of the composite primary key. Otherwise it adds that one pair. |
| DataModels.ActivitiesOf | src/data_processing/data_models.py:299-303 | The activities tagged on a record are exactly those paired with it in the association table. |
| Schema.SqlNameInjective | alembic/versions/8855f8d400c3_initial_migration.py:246-262 | Distinct tables have distinct SQL names, so each `create_table` / `drop_table` names exactly one table. |
| Migration.TargetsAreForeignKeyTargets | alembic/versions/8855f8d400c3_initial_migration.py:22-243 | The tables a table points at are exactly those its foreign-key constraints name. |
| Migration.RecordReferences | alembic/versions/8855f8d400c3_initial_migration.py:198-228 | `record` points at additive, end-of-life activity, release type and industry sector. The additive and generator-sector keys are NOT NULL, and the other keys are nullable. |
| Migration.SelfReferences | alembic/versions/8855f8d400c3_initial_migration.py:33-45 | The only table that points at itself is `chemical_activity`, through a nullable parent key. |
| Migration.UpgradeRankIndexes | alembic/versions/8855f8d400c3_initial_migration.py:22-243 | `upgrade` creates fifteen tables. Every table sits at exactly one position of its order. |
| Migration.TargetsRankLower | alembic/versions/8855f8d400c3_initial_migration.py:22-243 | Every other table that a table points at is created before it. |
| Migration.UpgradeRespectsForeignKeys | alembic/versions/8855f8d400c3_initial_migration.py:22-243 | At each `create_table`, every other table its foreign keys target is already created. |
| Migration.DowngradeReversesUpgrade | alembic/versions/8855f8d400c3_initial_migration.py:246-263 | `downgrade` drops the same fifteen distinct tables that `upgrade` creates, in exactly the reverse order. |
| Migration.DowngradeRespectsForeignKeys | alembic/versions/8855f8d400c3_initial_migration.py:246-263 | When a table is dropped, every table that points at it has already been dropped. |
| Migration.CreateNext | alembic/versions/8855f8d400c3_initial_migration.py:22-243 | With the tables before `t` in place, creating `t` is allowed and extends the created prefix by `t`. |
| Migration.DropLast | alembic/versions/8855f8d400c3_initial_migration.py:246-263 | With exactly the tables up to `t` in place, dropping `t` is allowed and shortens the prefix. |
| Migration.Database.CreateTable | alembic/versions/8855f8d400c3_initial_migration.py:24-32 | `op.create_table` succeeds exactly when the table is new and its other targets exist, and then adds the table. A refused call changes nothing. |
| Migration.Database.DropTable | alembic/versions/8855f8d400c3_initial_migration.py:248 | `op.drop_table` succeeds exactly when the table exists and no other existing table points at it, and then removes it. A refused call changes nothing. |
| Migration.Database.Upgrade | alembic/versions/8855f8d400c3_initial_migration.py:22-243 | `upgrade` succeeds exactly on an empty database, and then every table exists. |
| Migration.Database.Downgrade | alembic/versions/8855f8d400c3_initial_migration.py:246-263 | `downgrade` succeeds exactly when every table exists, and then none is left. |
| Config.NeededColumnEntry | src/config.py:54-67 | A `NeededColumn` seen as a mapping has exactly the eleven declared fields (note `relase_type`), and no `depends_on` or `is_general_info` key. |
| Config.NeededColumnDefaults | src/config.py:54-67 | A `NeededColumn` built from a name alone holds None in every other field. |
| Config.ListFieldDefaults | src/config.py:40-73 | `naics_code`, `tri_chem_id` and `needed_columns` default to empty lists. |
| Load.Matching | src/data_processing/tri/load/load.py:33 | `filter_by` keeps exactly the rows that match every filtered column. |
| Load.TwoMatches | src/data_processing/tri/load/load.py:33 | Two or more rows match exactly when two distinct positions hold matching rows. |
| Load.One | src/data_processing/tri/load/load.py:33 | `.one()` raises InvalidKeyword on an unknown column, NoResultFound exactly when nothing matches, and MultipleResultsFound exactly when two rows match. Otherwise it returns the single matching row. |
| Load.ExistsIn | src/data_processing/tri/load/load.py:30-36 | `element_exists` is false exactly when nothing matches and true exactly when one row matches. Any other outcome is the propagated MultipleResultsFound or InvalidKeyword. |
| Load.MaxId | src/data_processing/tri/load/load.py:49-50 | The largest id in use: a bound on every id, and attained unless the table is empty. |
| Load.CreateIn | src/data_processing/tri/load/load.py:46-51 | `create_element` fails on an unknown keyword, or with IntegrityError exactly when the row is not admissible. On success it appends exactly one row: a fresh id above every other id, the given values and the defaults elsewhere. |
| Load.GetOrCreateIn | src/data_processing/tri/load/load.py:38-44 | `get_or_create` returns a matching row that is in the table. The table is unchanged when one row matched, and gains only that row when it is created. NoResultFound never escapes. |
| Load.GetOrCreateTwice | src/data_processing/tri/load/load.py:38-44 | A second `get_or_create` with the same keywords returns the same row and adds nothing. |
| Load.UniqueNotNull | alembic/versions/8855f8d400c3_initial_migration.py:24-119 | The UNIQUE columns of every mapped table are NOT NULL columns of its class. |
| Load.AppendKeepsValid | src/data_processing/tri/load/load.py:49-50 | Appending an admissible row that has the class's columns and an id above all the others keeps the table valid. |
| Load.CreateKeepsValid | src/data_processing/tri/load/load.py:46-51 | An accepted insert keeps the table valid: keys, positive increasing ids, NOT NULL and UNIQUE. |
| Load.GetOrCreateKeepsValid | src/data_processing/tri/load/load.py:38-44 | An accepted `get_or_create` keeps the table valid. |
| Load.UniqueLookup | src/data_processing/tri/load/load.py:33 | In a valid table, `.one()` finds a value that is present in a UNIQUE column. |
| Load.AtMostOneMatch | alembic/versions/8855f8d400c3_initial_migration.py:24-119 | In a valid table, no two rows hold the same non-NULL value in a UNIQUE column. |
| Load.ActivityEntries | src/data_processing/tri/load/load.py:55 | The activity loader keeps exactly the entries without an `is_general_info` key, in order. |
| Load.ActivityEntriesSingle | src/data_processing/tri/load/load.py:55 | A single entry is kept exactly when it has no `is_general_info` key. |
| Load.ActivityEntriesAppend | src/data_processing/tri/load/load.py:55 | The filter of a concatenation is the concatenation of the filters. With the single-entry case this fixes the result completely: the kept entries, in list order. |
| Load.ResolveParent | src/data_processing/tri/load/load.py:58-65 | Without `depends_on` the parent is None and the table is unchanged. With it, the parent id is that of a row named after the dependency. A created parent has only its name set. |
| Load.ActivityStep | src/data_processing/tri/load/load.py:57-76 | One iteration of `load_chemical_activity`: the parent first, then the `name` lookup, then the create. Its properties are stated by `Load.ActivityStepShape`, `Load.StepKeepsValid`, `Load.StepSettles`, `Load.StepStable` and `Load.ActivityStepKeepsParents`. |
| Load.AdditiveStep | src/data_processing/tri/load/load.py:82-91 | One iteration of `load_plastic_additives`: the CASRN lookup, then the create. Its properties are stated by `Load.AdditiveStepShape`, `Load.StepKeepsValid`, `Load.StepSettles` and `Load.StepStable`. |
| Load.Run | src/data_processing/tri/load/load.py:57-91 | A loader's `for` loop, stopped by the first exception with the earlier commits kept. Its properties are stated by `Load.RunExtends`, `Load.RunKeepsValid`, `Load.RunKeepsParents`, `Load.RunSettles`, `Load.RunStable` and `Load.RunIdempotent`. |
| Load.LoadActivities | src/data_processing/tri/load/load.py:53-76 | `load_chemical_activity` as a function of the table: the filtered entries, then the loop. Stated by `Load.LoadActivitiesIdempotent` and by the loop method `Load.TriDataLoader.LoadChemicalActivity`. |
| Load.LoadAdditives | src/data_processing/tri/load/load.py:78-91 | `load_plastic_additives` as a function of the table. Stated by `Load.LoadAdditivesIdempotent` and by the loop method `Load.TriDataLoader.LoadPlasticAdditives`. |
| Load.ActivityStepShape | src/data_processing/tri/load/load.py:57-76 | One activity iteration adds at most a bare parent and the activity itself. An activity is created only when no earlier row bears its name. It carries the entry's name and description. Its parent column is NULL without `depends_on`, and otherwise the id of an earlier row named by `depends_on`. |
| Load.ActivityCreateShape | src/data_processing/tri/load/load.py:67-76 | The created activity is appended after rows none of which bears its name. It has the entry's name and description, and it links to the resolved parent. |
| Load.AdditiveStepShape | src/data_processing/tri/load/load.py:82-91 | One additive iteration adds at most one row, `{name, tri_chemical_id = CASRN}`, and only when no row holds that CASRN. |
| Load.StepExtends | src/data_processing/tri/load/load.py:57-91 | An iteration keeps every existing row, in place, and adds a bounded number of rows. |
| Load.StepKeepsValid | src/data_processing/tri/load/load.py:57-91 | An iteration keeps the table valid. |
| Load.StepSettles | src/data_processing/tri/load/load.py:57-91 | An iteration that raises nothing leaves its entry's name (and parent name, or CASRN) in the table. |
| Load.StepStable | src/data_processing/tri/load/load.py:57-91 | On a valid table that already holds an entry, the iteration changes nothing and raises nothing. |
| Load.ActivityStepKeepsParents | src/data_processing/tri/load/load.py:58-76 | Every parent reference keeps pointing at an earlier row. |
| Load.RunExtends | src/data_processing/tri/load/load.py:57-91 | A loader run keeps every existing row and adds a bounded number of rows. |
| Load.RunKeepsValid | src/data_processing/tri/load/load.py:57-91 | A loader run keeps the table valid. |
| Load.RunKeepsParents | src/data_processing/tri/load/load.py:57-76 | An activity run keeps every parent reference pointing backwards. |
| Load.RunSettles | src/data_processing/tri/load/load.py:57-91 | A run that raises nothing leaves every entry settled. |
| Load.RunStable | src/data_processing/tri/load/load.py:57-91 | A run over entries that are all settled changes nothing. |
| Load.RunIdempotent | src/data_processing/tri/load/load.py:57-91 | Running a loader again after a run that raised nothing adds no row and raises nothing. |
| Load.LoadActivitiesIdempotent | src/data_processing/tri/load/load.py:53-76 | A second `load_chemical_activity` with the same configuration adds nothing. |
| Load.LoadAdditivesIdempotent | src/data_processing/tri/load/load.py:78-91 | A second `load_plastic_additives` with the same configuration adds nothing. |
| Load.ConstructBare | src/data_processing/tri/load/load.py:59-62 | `ChemicalActivity(name=...)` leaves the description and the parent NULL. |
| Load.ExampleCreateParent | src/data_processing/tri/load/load.py:38-51 | On an empty table, "A" is not found and is created with id 1. |
| Load.ExampleCreateChild | src/data_processing/tri/load/load.py:58-76 | With "A" stored, "B" depending on "A" is created with parent id 1. |
| Load.ParentFirstExample | src/data_processing/tri/load/load.py:53-76 | Loading "A", then "B" on "A", gives the rows A(1) and B(2, parent 1). |
| Load.ForwardReferenceExample | src/data_processing/tri/load/load.py:53-76 | If "B" on "A" comes first, a bare "A" is created for it, and a later full "A" entry is skipped, so its description is lost. |
| Load.TypedColumnsHaveNoParents | src/data_processing/tri/load/load.py:58-65 | Entries without `depends_on` create only rows with a NULL parent. |
| Load.TypedColumnsAreLoaded | src/data_processing/tri/load/load.py:55 | Every entry built from a `NeededColumn` is kept by the activity filter. |
| Load.Session.QueryOne | src/data_processing/tri/load/load.py:33 | A session query gives `One` over the current table. |
| Load.Session.AddAndCommit | src/data_processing/tri/load/load.py:49-50 | `add` plus `commit` stores the row with the next id exactly when it is admissible. Otherwise it raises IntegrityError and leaves the session unchanged. |
| Load.TriDataLoader.ElementExists | src/data_processing/tri/load/load.py:30-36 | Gives `ExistsIn` on the current table and changes nothing. |
| Load.TriDataLoader.CreateElement | src/data_processing/tri/load/load.py:46-51 | Returns the row of `CreateIn`. Only the model's table changes, to the table `CreateIn` gives. |
| Load.TriDataLoader.GetOrCreate | src/data_processing/tri/load/load.py:38-44 | Returns the row of `GetOrCreateIn`. Only the model's table changes, to the table `GetOrCreateIn` gives. |
| Load.TriDataLoader.LoadActivity | src/data_processing/tri/load/load.py:58-76 | The loop body for one entry leaves the activity table and the error of `ActivityStep`. |
| Load.TriDataLoader.LoadAdditive | src/data_processing/tri/load/load.py:83-91 | The loop body for one additive leaves the additive table and the error of `AdditiveStep`. |
| Load.TriDataLoader.LoadChemicalActivity | src/data_processing/tri/load/load.py:53-76 | The `for` loop leaves the activity table and the error of `LoadActivities`, and leaves every other table unchanged. |
| Load.TriDataLoader.LoadPlasticAdditives | src/data_processing/tri/load/load.py:78-91 | The `for` loop leaves the additive table and the error of `LoadAdditives`, and leaves every other table unchanged. |
| Utils.FactorsDistinct | src/data_processing/utils.py:38-39 | The two factors are 0.453592 and 10^-3. They are distinct and positive, so no member aliases another. |
| Utils.Lower | src/data_processing/utils.py:55 | Lower-casing keeps the length, maps each letter, and leaves no capital letter. |
| Utils.LowerIdempotent | src/data_processing/utils.py:55 | Lower-casing twice is lower-casing once. |
| Utils.FromString | src/data_processing/utils.py:55-61 | `from_string` as written. Its behaviour on every input is stated by `Utils.FromStringAlwaysFails` (see Findings). |
| Utils.FromStringAlwaysFails | src/data_processing/utils.py:55-61 | `from_string` as written raises "Unknown unit: <lower-cased unit>" on every input. |
| Utils.FromStringRejectsDocumentedUnits | src/data_processing/utils.py:42-61 | In particular, "Pounds" and "Grams" are rejected. |
| Utils.FromStringIntended | src/data_processing/utils.py:42-61 | The corrected lookup gives pounds exactly for `pounds` in any letter case, and grams exactly for `grams`. Anything else gives the same error message. |
| Utils.FromStringIntendedAcceptsUnits | src/data_processing/utils.py:42-61 | The corrected lookup accepts "Pounds", "POUNDS" and "Grams", and rejects "Ounces". |
| Utils.JoinTwo | src/data_processing/utils.py:83-88 | `posixpath.join` of two components: an absolute component replaces the path, a relative one is appended after one '/'. Stated by `Utils.JoinTwoAppends` and `Utils.FileNameIsLast`. |
| Utils.Join | src/data_processing/utils.py:83-88 | `os.path.join` of several components, the pairwise join from left to right. Stated by `Utils.DataFilePathLayout` and `Utils.FileNameIsLast`. |
| Utils.GenerateDataFilePath | src/data_processing/utils.py:67-88 | The working directory joined with "data", the subfolder (default "raw") and the file name. Stated by `Utils.DataFilePathLayout`, `Utils.DefaultSubfolderIsRaw` and `Utils.FileNameIsLast`. |
| Utils.JoinTwoAppends | src/data_processing/utils.py:83-88 | Joining a relative component appends it after at most one separator, and the text before it ends in '/'. |
| Utils.DataFilePathLayout | src/data_processing/utils.py:67-88 | For plain components, the path is `<cwd>/data/<subfolder>/<file_name>` with one '/' between parts. |
| Utils.DefaultSubfolderIsRaw | src/data_processing/utils.py:71 | The default subfolder puts a plain file under `<cwd>/data/raw/`. |
| Utils.FileNameIsLast | src/data_processing/utils.py:83-88 | Whatever the components, the path ends with the file name, preceded by '/' or by nothing. |
| Queries.Unique | src/data_processing/frs_api_queries.py:123 | Deduplication keeps exactly the input's values, each once, in the order of first appearance. |
| Queries.UniqueOfDistinct | src/data_processing/naics_api_queries.py:166 | A list without repeats deduplicates to itself. |
| Queries.UniqueIdempotent | src/data_processing/naics_api_queries.py:166 | Deduplication is idempotent. |
| Queries.UniquePosition | src/data_processing/frs_api_queries.py:123 | Every input value sits at exactly one position of the deduplicated list. |
| Queries.Substitute | src/data_processing/frs_api_queries.py:67-69 | `template.format(name=value)` for one keyword field. Stated by `Queries.SubstituteNoBrace`, `Queries.SubstitutePrefix` and `Queries.SubstituteOneField`. |
| Queries.SubstituteNoBrace | src/data_processing/frs_api_queries.py:67-69 | `str.format` leaves a text without replacement fields unchanged. |
| Queries.SubstitutePrefix | src/data_processing/frs_api_queries.py:67-69 | Text without braces in front of the fields is copied unchanged. |
| Queries.SubstituteOneField | src/data_processing/frs_api_queries.py:67-69 | Formatting a template with one `{name}` field puts the value in its place. |
| Queries.Column | src/data_processing/frs_api_queries.py:123 | `df[column]` fails with KeyError exactly when the column is missing. |
| FrsApiQueries.Endpoint | src/data_processing/frs_api_queries.py:67-69 | `frs_facility_site/registry_id_equals` formatted with the registry id. Stated by `FrsApiQueries.EndpointLayout`. |
| FrsApiQueries.FullUrl | src/data_processing/frs_api_queries.py:66-72 | `base_url/endpoint/join_endpoint/primary_filter`. Stated by `FrsApiQueries.FullUrlIdentifiesId`. |
| FrsApiQueries.EndpointLayout | src/data_processing/frs_api_queries.py:67-69 | The endpoint is `frs_facility_site/registry_id_equals`, with the registry id in the field's place. |
| FrsApiQueries.FullUrlIdentifiesId | src/data_processing/frs_api_queries.py:66-72 | For a well-formed configuration, distinct registry ids give distinct URLs. |
| FrsApiQueries.RowOf | src/data_processing/frs_api_queries.py:77-83 | A row always carries the queried id. Non-200 or an empty payload gives no code. Otherwise the code is the first element's `naics_code`, or None when the key is absent. |
| FrsApiQueries.FetchAll | src/data_processing/frs_api_queries.py:99-100 | One row per id, in the order of the ids, each row mapped from the reply to that id's URL. |
| FrsApiQueries.ProcessRegistryIds | src/data_processing/frs_api_queries.py:122-130 | Fails with KeyError exactly when the id column is missing. |
| FrsApiQueries.OneRowPerRegistryId | src/data_processing/frs_api_queries.py:122-130 | Exactly one row per distinct id, in first-appearance order, each with the reply to its own URL. |
| FrsApiQueries.FailedRequestKeepsId | src/data_processing/frs_api_queries.py:81-83 | A non-200 reply still yields the id's row, with no NAICS code. |
| NaicsApiQueries.LoadApiKey | src/data_processing/naics_api_queries.py:97-104 | Succeeds exactly when `CENSUS_DATA_API_KEY` is set and non-empty, and returns it. Otherwise it gives the EnvironmentError message. |
| NaicsApiQueries.RowOf | src/data_processing/naics_api_queries.py:127-134 | Carries the code. On 200 the title is `data[1][0]` when there is a second row, and None otherwise. IndexError comes exactly when that row is empty. Non-200 gives no title. |
| NaicsApiQueries.NaicsDataFetcher.Create | src/data_processing/naics_api_queries.py:73-85 | Construction succeeds exactly when the key loads. The fetcher then holds the configuration, the key and `base_url/year/dataset`. A failure creates no object. |
| NaicsApiQueries.NaicsDataFetcher.FullUrl | src/data_processing/naics_api_queries.py:120-126 | The request URL for one code. Stated by `NaicsApiQueries.NaicsDataFetcher.FullUrlLayout` and `NaicsApiQueries.NaicsDataFetcher.FullUrlIdentifiesCode`. |
| NaicsApiQueries.NaicsDataFetcher.FullUrlLayout | src/data_processing/naics_api_queries.py:120-126 | The URL is `base_url?get=…&for=…&`, then the code parameter with the code in its field, then `&key=<api key>`. |
| NaicsApiQueries.NaicsDataFetcher.FullUrlIdentifiesCode | src/data_processing/naics_api_queries.py:120-126 | For a well-formed configuration, distinct codes give distinct URLs. |
| NaicsApiQueries.NaicsDataFetcher.FetchAll | src/data_processing/naics_api_queries.py:136-150 | Succeeds exactly when every reply can be read, with one row per code in order. Otherwise it raises IndexError. |
| NaicsApiQueries.NaicsDataFetcher.ProcessNaicsCodes | src/data_processing/naics_api_queries.py:152-169 | KeyError on a missing column. Otherwise the column is deduplicated, then fetched. |
| NaicsApiQueries.NaicsDataFetcher.OneRowPerCode | src/data_processing/naics_api_queries.py:166-169 | Exactly one row per distinct code, in first-appearance order. Each row is the one read from that code's own reply, and a failed request keeps its code with no title. |
| NaicsApiQueries.NaicsDataFetcher.EmptyTitleRowRaises | src/data_processing/naics_api_queries.py:130 | A 200 reply whose second row is empty makes the whole processing raise IndexError. |

## Left out

- HTTP and concurrency: the aiohttp sessions, `asyncio.gather` and `asyncio.run` are not modelled. Each request is the pure parameter `server`. Gathering is a map over the list, since every exception the model can raise is the same IndexError.
- JSON payload shapes other than the ones typed here are left out: an FRS list of objects with text or null values, and a Census list of rows of text. A `null` body and non-list payloads are among them.
- `load_dotenv` and `os.getenv` are left out. The environment after loading is the parameter `env`.
- `os.getcwd()` at import time is left out. The working directory is a parameter of `Utils.GenerateDataFilePath`.
- The `print` logging of failed requests and the `__main__` smoke tests are left out.
- `TriDataHelper.load_txt_data` is left out: it only reads a tab-separated file with pandas.
- `src/data_processing/tri/orchestator.py` and `src/data_processing/main.py` are not part of this model. They are logging, database creation and calls into transformer classes whose source is not available.
- pandas DataFrames are not modelled: a frame is a map from column name to a list of text values. The result frame is the list of its rows, and there is no NaN handling in `unique`.
- Utils.Lower: models `str.lower()` on ASCII letters only, not Unicode case mapping.
- Utils.Value: the factors are exact reals, not IEEE doubles.
- Queries.Substitute: models `str.format` with one keyword field only. Escaped braces `{{`/`}}`, other fields (which raise KeyError in Python) and format specifications are not modelled.
- Migration.Database.Upgrade: stops at the first refused `create_table`. A real `upgrade` would raise there too. The column types, server defaults and the `alembic_version` bookkeeping are left out.
- DataModels.Construct: refuses `id=` and relationship keywords (`sub_activities=`, `records=`, …), which SQLAlchemy's declarative constructor accepts because it only tests that the class has the attribute. A TypeError names only the first bad keyword, while the model reports the whole set. The loader passes neither kind of keyword.
- Migration.Database.CreateTable: requires the foreign-key targets to exist, as PostgreSQL does. SQLite would accept a missing target. `upgrade` satisfies the stricter rule (`Migration.UpgradeRespectsForeignKeys`), which is the point of proving its order.
- Migration.Database.DropTable: refuses to drop a table that another existing table still references, as PostgreSQL does. SQLite would drop it. `downgrade` satisfies the stricter rule (`Migration.DowngradeRespectsForeignKeys`).
- Load.CreateIn: foreign keys are not checked on insert (SQLite's default), and the amount is a real number rather than a float.
- Load.Session.AddAndCommit: the session's identity map, autoflush, rollback after an IntegrityError and transaction isolation are left out. A refused commit leaves the table as it was.
- The ORM relationships other than `sub_activities` and the association (backrefs `records`, `generator_records`, `handler_records`) are navigation only and are not modelled.
- Filtering by `id` is left out: the loader never filters on it, so a filter names only attribute columns.

## Findings

| source | as written | input that shows it | evidently intended | confidence | as-written member | corrected member |
|---|---|---|---|---|---|---|
| src/data_processing/utils.py:55-59 | the unit is lower-cased, then compared with "Pounds" and "Grams", which contain capitals, so no input can match | `from_string("Pounds")` raises "Unknown unit: pounds" | compare the lower-cased unit with "pounds" and "grams", returning the documented enum member | high (not executed) | Utils.FromStringAlwaysFails | Utils.FromStringIntended |
