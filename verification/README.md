# Lab-administration survey pulldown and object tables, in Dafny

This project models four pieces of the `knimin` lab-administration backend.

- **The American Gut survey pulldown** (`gather_agsurveys`). Two long-format
  answer streams are concatenated. These are the structured answers and the
  free-text answers, each a list of `(survey_question_id, survey_id, response)`.
  Every answer to a MULTIPLE question gets a `preset` equal to its own
  response. The records are then pivoted into a wide table with one row per
  `survey_id` and one column per `(question, preset)`.
- **`_add_object`** and its five wrappers. They add a named object to one of the
  three-column tables of the `pm` schema. The checks run in a fixed order:
  the table exists, the table has the expected column design, the name is not
  empty, the name is not a duplicate. Only then is the row inserted.
- **The exception classes** of the database layer, with the two messages they
  format themselves.
- **The lookup tables** of the constants module: months, seasons, regions by
  state, and the blank-sample defaults.

Modules, one file each:

| file | module | models |
|---|---|---|
| `results.dfy` | `Results` | `Option` (Python `None`) and `Result` (value or error) |
| `exceptions.dfy` | `Exceptions` | `knimin/lib/exceptions.py` |
| `data_access_pm.dfy` | `DataAccessPM` | `knimin/lib/data_access_pm.py` |
| `metadata_pulldown.dfy` | `MetadataPulldown` | `knimin/lib/metadata_pulldown.py` |
| `constants.dfy` | `Constants` | `knimin/lib/constants.py`, lines 295-519 |

Representation choices:

- The pivoted table is a `map<SurveyId, map<ColKey, string>>`. A column is
  `Single(q)` when the `preset` is missing and `Multi(q, v)` when the
  `preset` is `v`. A cell that pandas fills with NaN is a column missing
  from the row's map.
- The database reads of the pulldown are parameters. These are the rows of
  `ag.survey_answers`, the rows of `ag.survey_answers_other`, and the rows of
  the MULTIPLE possible-responses join.
- The `pm` schema is a `Store`, a map from table name to that table's column
  list and rows. `_add_object` is a pure transition that returns the store
  afterwards together with the exception it raised, if any.
- A raised exception is its class plus its message. Python's `except C`
  becomes `Catches(C, e)`, which holds when `e`'s class is a subclass of `C`.

`unstack` needs each `(survey_id, survey_question_id, preset)` triple to be
unique, and pandas raises an error when it is not. `Pivot` therefore requires
unique cells. `GatherAgSurveys` returns `Err(DuplicateEntries)` in exactly the
cases where two answers would share a cell.

`gather_agsurveys` has no tie-break for duplicate cells, because pandas
raises. It adds no column for a MULTIPLE value nobody chose, and it does not
relabel columns to short names. The model does the same: a duplicate cell is
an error, only observed `(question, preset)` pairs become columns, and
columns keep their question ids.

## Model

| member | source | states |
|---|---|---|
| MetadataPulldown.ConcatAnswers | knimin/lib/metadata_pulldown.py:31-33 | The merged stream is the structured answers followed by the free-text answers. Its length is the sum of both, and it has the same multiset of records, so nothing is dropped or reordered. |
| MetadataPulldown.MultipleQuestionIds | knimin/lib/metadata_pulldown.py:36-45 | A question is MULTIPLE exactly when some row of the MULTIPLE possible-responses join names it. |
| MetadataPulldown.UniqueQuestionIds | knimin/lib/metadata_pulldown.py:45 | `unique()` lists every question id of the join once, with no repeats, and lists no other id. |
| MetadataPulldown.TagAnswer | knimin/lib/metadata_pulldown.py:46-50 | A record gets a `preset` exactly when its question is MULTIPLE, and that `preset` is its own response. Its question, survey and response stay the same. |
| MetadataPulldown.TagAll | knimin/lib/metadata_pulldown.py:46-50 | Tagging works record by record. It keeps the length and order of the stream. |
| MetadataPulldown.AnswerColumnCases | knimin/lib/metadata_pulldown.py:46-53 | An answer to a MULTIPLE question lands in column `(question, response)`. Any other answer lands in the bare question's column. |
| MetadataPulldown.Pivot | knimin/lib/metadata_pulldown.py:52-55 | With no two records sharing a cell: the row keys are exactly the distinct survey ids, each row holds exactly the columns its survey's records use, and each record's cell holds its response. A column with no record is absent. |
| MetadataPulldown.PivotColumns | knimin/lib/metadata_pulldown.py:53-55 | The column index of the pivot is exactly the set of distinct `(question, preset)` pairs in the stream. |
| MetadataPulldown.UniqueCellsOfTagged | knimin/lib/metadata_pulldown.py:46-55 | The tagged stream has unique `(survey_id, question, preset)` triples exactly when no two answers land in the same survey's same column. |
| MetadataPulldown.GatherAgSurveys | knimin/lib/metadata_pulldown.py:17-57 | The pulldown fails exactly when two answers would share a cell. Otherwise the rows are the surveys that answered, each row's columns are the ones its answers land in, and each answer's cell holds its response. |
| MetadataPulldown.GatherMultiCells | knimin/lib/metadata_pulldown.py:46-55 | Every `(q, v)` cell of the pulldown belongs to a MULTIPLE question and holds `v` itself. Every bare-question column belongs to a question that is not MULTIPLE. |
| MetadataPulldown.MultiSelectExample | knimin/lib/metadata_pulldown.py:31-57 | Choosing Red and Green from {Red, Blue, Green} gives cells Red and Green holding their own values and no Blue cell. A free-text answer sits under its bare question. |
| MetadataPulldown.DuplicateSingleAnswerExample | knimin/lib/metadata_pulldown.py:53-55 | Two answers from one survey to the same single-answer question make the pivot fail. Neither value is kept. |
| Exceptions.Hierarchy | knimin/lib/exceptions.py:5-77 | The duplicate and unknown-ID errors are `LabadminDBError`s, which are `LabadminError`s. `ValueError` is not a `LabadminError`, and every class is an `Exception`. |
| Exceptions.SubclassTransitive | knimin/lib/exceptions.py:5-77 | A handler for a class catches every subclass of its subclasses. |
| Exceptions.SubclassAntisymmetric | knimin/lib/exceptions.py:5-77 | No two distinct classes are subclasses of each other. |
| Exceptions.DuplicateMessage | knimin/lib/exceptions.py:59-64 | The message is `The '<obj>' object with attributes (<attrs>) already exists.` and so ends with `already exists.`. |
| Exceptions.DuplicateMessageRoundTrip | knimin/lib/exceptions.py:59-64 | A message parses back to `(obj, attrs)` if and only if it is the duplicate message for them and `obj` has no single quote. |
| Exceptions.DuplicateError | knimin/lib/exceptions.py:59-64 | The duplicate error is caught as a `LabadminDBError`. Its arguments can be read back from its message exactly when the object name has no single quote. |
| Exceptions.UnknownIDMessage | knimin/lib/exceptions.py:72-77 | The message is `The object with ID '<id>' does not exists in table '<table>'`, which begins with `The object with ID '<id>' does not`. |
| Exceptions.UnknownIDMessageRoundTrip | knimin/lib/exceptions.py:72-77 | A message parses back to `(id, table)` if and only if it is the unknown-ID message for them and `id` has no single quote. |
| Exceptions.UnknownIDError | knimin/lib/exceptions.py:72-77 | The unknown-ID error is caught as a `LabadminDBError`. Its arguments can be read back from its message exactly when the id has no single quote. |
| DataAccessPM.MissingTableError | knimin/lib/data_access_pm.py:37-39 | The missing-table error is a `LabadminDBError` whose message ends with `does not exist in data base.`. |
| DataAccessPM.ColumnDesignError | knimin/lib/data_access_pm.py:46-50 | The bad-design error is a `LabadminDBError` whose message begins with `Table <tbl> does not have the expected column`. |
| DataAccessPM.EmptyNameError | knimin/lib/data_access_pm.py:52-54 | The empty-name error is a `ValueError` reading `The <tbl> name cannot be empty.`. A `LabadminError` handler does not catch it. |
| DataAccessPM.AddObject | knimin/lib/data_access_pm.py:6-69 | A table that is absent, or that has no columns and so no row in the column view, raises the missing-table error. A listed table whose columns differ from `[tbl_id, name, notes]` raises the design error. A `ValueError` happens exactly when both table checks pass and the name is `None` or empty. A duplicate error (`name: <name>`) happens exactly when the name is already in the table. A failed call leaves the store unchanged. A successful call appends one row, so the table's names gain `name`, and every other table stays the same. |
| DataAccessPM.ColumnlessTableIsMissing | knimin/lib/data_access_pm.py:34-39 | A `pm` table with no columns is reported missing, whatever its rows, name and notes, and the store is left unchanged. |
| DataAccessPM.AddObjectKeepsNamesUnique | knimin/lib/data_access_pm.py:56-69 | If no table has two rows with one name, that stays true after any call. |
| DataAccessPM.AddSameNameTwice | knimin/lib/data_access_pm.py:56-69 | Adding a fresh name to a well-designed table succeeds. Adding the same name again raises the duplicate error and changes nothing. |
| DataAccessPM.DuplicateNamesTheObject | knimin/lib/data_access_pm.py:60-62 | The message of a duplicate error raised by `_add_object` parses back to the table name and `name: <name>`, with the name verbatim. |
| DataAccessPM.AddMasterMixLot | knimin/lib/data_access_pm.py:72-89 | Delegates to `_add_object` with table `master_mix_lot`. An empty name in a well-designed table raises the empty-name `ValueError` for `master_mix_lot`. |
| DataAccessPM.AddProcessingRobot | knimin/lib/data_access_pm.py:92-109 | Delegates to `_add_object` with table `processing_robot`. An empty name in a well-designed table raises the empty-name `ValueError` for `processing_robot`. |
| DataAccessPM.AddTm300_8Tool | knimin/lib/data_access_pm.py:112-129 | Delegates to `_add_object` with table `tm300_8_tool`. An empty name in a well-designed table raises the empty-name `ValueError` for `tm300_8_tool`. |
| DataAccessPM.AddTm50_8Tool | knimin/lib/data_access_pm.py:132-149 | Delegates to `_add_object` with table `tm50_8_tool`. An empty name in a well-designed table raises the empty-name `ValueError` for `tm50_8_tool`. |
| DataAccessPM.AddWaterLot | knimin/lib/data_access_pm.py:152-169 | Delegates to `_add_object` with table `water_lot`. An empty name in a well-designed table raises the empty-name `ValueError` for `water_lot`. |
| Constants.MonthStrThenInt | knimin/lib/constants.py:295-303 | The number-to-name table is defined on exactly 1..12. Looking a number's name up in the name-to-number table gives the number back. |
| Constants.MonthIntThenStr | knimin/lib/constants.py:295-303 | Looking a name's number up in the number-to-name table gives the name back. |
| Constants.MonthLookupsSize | knimin/lib/constants.py:295-303 | Both month tables have twelve entries. |
| Constants.SeasonLookupTotal | knimin/lib/constants.py:305-317 | The season table is defined on exactly `None` and 1..12. `None` maps to `Unspecified`. Months 12, 1 and 2 are Winter, 3-5 Spring, 6-8 Summer and 9-11 Fall. |
| Constants.Regions | knimin/lib/constants.py:324-326 | A regions entry has exactly the keys `Census_1`, `Census_2` and `Economic`, holding the three given values. |
| Constants.RegionsByState | knimin/lib/constants.py:324-485 | Every entry of the table has exactly the three region keys. Each state's census division lies inside its census region. |
| Constants.RegionsOfSpecialKeys | knimin/lib/constants.py:324-470 | `None` maps all three keys to `Unspecified`, and PR and VI map all three to `Territories`. |
| Constants.RegionsOfCalifornia | knimin/lib/constants.py:339-341 | California is in the West census region, the Pacific division and the Far West economic region. |
| Constants.GetItem | knimin/lib/constants.py:488-491 | A `defaultdict` lookup returns the listed value, or the factory's value for a missing key. The missing key is then stored with that value, and no listed entry changes. |
| Constants.GetItemIdempotent | knimin/lib/constants.py:488-491 | Looking the same key up twice returns the same value and leaves the dictionary as the first lookup left it. |
| Constants.BlanksValuesLookup | knimin/lib/constants.py:488-519 | A key not in the list reads `Not applicable`, and a listed key reads its listed value. |
| Constants.BlanksListedExamples | knimin/lib/constants.py:491-519 | `COUNTRY` reads `USA`, and `SUBSET_AGE` reads `False`, the text of `str(False)`. |

## Left out

- The database connection and the SQL reads of the pulldown are not modelled. Their result rows are parameters. This includes the MULTIPLE join itself: its rows are given, not computed from the two question tables.
- The `TRN` transactions and the `INFORMATION_SCHEMA` queries of `_add_object` are not modelled. The store holds each table's column list as the column query returns it. A table with no columns has no row in that view, so `_add_object` reports it as missing, and so does the model.
- The serial id of an inserted row, which `_add_object` asks for with `RETURNING`, is not modelled. The function returns nothing.
- A non-string `name` is not modelled. It is `Option<string>`, with `None` for Python's `None`.
- The pandas frame mechanics are not modelled: the NaN `preset`, the extra `response` column level left by `.T`, and the sorted order of rows and columns. The table is a map of maps with no order.
- The text of the pandas error for duplicate index entries is not modelled. That message comes from pandas, not from this repository, so `Err(DuplicateEntries)` carries no message.
- MetadataPulldown.UniqueQuestionIds: does not state that ids come out in order of first appearance. Only membership in the result is used (`isin`).
- Exceptions.UnknownIDMessage: the missing id is text that has already been rendered. Python's `%s` rendering of an integer id is not modelled.
- Constants.RegionsByState: the dictionary is a lookup function, and a missing key gives `None` where Python raises `KeyError`. The contract does not list the 54 keys.
- `LabadminDBWarning`, the `warnings.simplefilter` call and the commented-out exception classes are not modelled. Nothing here raises them.
- `extract_dna_from_sample_plate` and `remove_dna_plate` are not part of this model. Their source is not available.
- The metadata dictionaries `env_lookup` and `md_lookup` of the constants module are not modelled. They are plain data with no behaviour beyond lookup.
- The dietary-survey HTTP client, the web handlers and the project-tracker integration are not modelled. They are I/O glue.
- The correction and masking phases named in the pulldown's module comment are not modelled, because they are not implemented.
