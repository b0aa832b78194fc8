# mt-mesonet-satellite: gap filling and the observation store, in Dafny

This project models the two sequential cores of `mt_mesonet_satellite`, the job that
keeps the Montana Mesonet's archive of satellite observations up to date.

- **Gap filling (`update.py`).** The table of latest stored dates is taken per product,
  and each date moves forward one day: that is where the backfill of each product
  resumes. One extraction task is planned per distinct product. Its layers are the
  product's non-QA layers whose names contain one of the product's elements, ignoring
  case, minus the statistical variants on the deny-list (`_pft`, `_std_`, `StdDev`),
  each layer listed once. The task runs from the gap date to today and gets a
  deterministic name, `PRODUCT_YYYYMMDD_YYYYMMDD`. A product whose rows carry more than
  one start date makes planning fail. The planned tasks are optionally launched. Then
  they are polled in rounds: each round tries every outstanding task, keeps in order the
  ones still pending, and lets any other error propagate. The loop ends when nothing is
  pending.
- **The observation store (`db/Neo4jConn.py`).** The store is a graph: stations keyed
  by name, observations keyed by id (platform, element, value, units), and OBSERVES
  relationships from a station to an observation that carry the timestamp. `post`
  MERGEs row after row, each in its own transaction, and skips a row whose id is already
  stored with other attributes. `init_db` creates the index and the two uniqueness
  constraints, then bulk-loads the `data_init*` files with CREATE, one transaction per
  file. `query` returns the relationships of one station and element whose timestamp
  lies in an inclusive window, as a labelled frame.

Modules, one file each: `Wrappers` (Option, Result), `Sequences` (duplicate-freedom,
repetition), `Text` (substring
search, ASCII lower-casing, character removal, zero-padded decimals), `Calendar` (the
proleptic Gregorian calendar of Python's `datetime.date`), `Update` (update.py) and
`Neo4jConn` (Neo4jConn.py, with the class `MesonetSatelliteDB`).

How the model represents things:
- **Dates.** A date is a day number: days since 0001-01-01, that is
  `date.toordinal() - 1`. `Calendar.DateOf` turns a day number into a calendar date,
  and `Calendar.IsoDate` gives `str(date)`.
- **Remote calls and the clock.** "Today" is a parameter. The layer catalogue
  (`Product(x).layers`) is a function from product code to a map from layer name to
  `IsQA`. `Submit.download` becomes an oracle `poll(round, task)` that answers `Pending`
  (`PendingTaskError`), `Done` or `Failed` (any other exception).
- **Arbitrary orders.** The order of `list(set(...))` for both products and layers is
  arbitrary. The model makes an arbitrary choice (`:|`). The contracts hold for every
  order.
- **Behaviour the model keeps as the code has it:**
  - `_init_index` creates the index and constraints without `IF NOT EXISTS`, so
    `init_db` on a store that already has them fails.
  - A task is planned for every product, also when its gap date is today or later.
  - The check that a product has a single start date is made per product, inside the
    planning loop, after its layers are collected.
  - Polling sleeps once, before the first round; the loop logs a wait after each round
    but does not sleep again.
  - `query` labels its columns by position, so the frame's `value` column holds the
    station name (see "## Findings").

## Model

| member | source | states |
|---|---|---|
| `Update.FindMissingData` | mt_mesonet_satellite/update.py:35-38 | same number of rows; each row keeps its product and element, and its date becomes the next calendar day |
| `Update.FindMissingDataKeepsPlatforms` | mt_mesonet_satellite/update.py:35-38 | the gap table names exactly the products of the latest-date table, so a product with no stored data never appears |
| `Update.RowsFor` | mt_mesonet_satellite/update.py:60 | the sub-table of a product holds exactly the rows carrying that product |
| `Update.SelectedAvoidsDenyList` | mt_mesonet_satellite/update.py:20 | no selected layer contains `_pft`, `_std_` or `StdDev` (case-sensitive) |
| `Update.LayerFilterExample` | mt_mesonet_satellite/update.py:62-69 | of NDVI, NDVI_std_dev and NDVI_pft, all non-QA, element NDVI selects only NDVI |
| `Update.CollectLayers` | mt_mesonet_satellite/update.py:61-69 | a layer is collected iff it is non-QA, not deny-listed, and contains (ignoring case) the element of some row of the product |
| `Update.ListOfSet` | mt_mesonet_satellite/update.py:71 | the layer list holds each collected layer exactly once and nothing else |
| `Update.TaskNameParts` | mt_mesonet_satellite/update.py:77-84 | the name is product, `_`, start as YYYYMMDD, `_`, today as YYYYMMDD (dashes removed), and both dates read back from it |
| `Update.TaskNameDeterminesStart` | mt_mesonet_satellite/update.py:82-84 | for years up to 9999, two names of one product and end day are equal only if their start days are |
| `Update.PlanProduct` | mt_mesonet_satellite/update.py:60-92 | fails with the product iff its rows carry more than one start date; otherwise the task runs from that date to today with the named layers, one product entry per layer |
| `Update.PlanTasks` | mt_mesonet_satellite/update.py:55-93 | one task per distinct product and no other; fails iff some product is ambiguous, naming an ambiguous product |
| `Update.LaunchAll` | mt_mesonet_satellite/update.py:95-96 | every task is launched, in order, and nothing else changes |
| `Update.StartMissingTasks` | mt_mesonet_satellite/update.py:41-101 | plans over the advanced gap table; succeeds iff no product is ambiguous; one task per product; all launched iff start_now |
| `Update.PendingOfMembers` | mt_mesonet_satellite/update.py:128-133 | a task stays outstanding iff it was outstanding and its download signalled pending |
| `Update.PollRoundFailure` | mt_mesonet_satellite/update.py:124-130 | a round fails iff some download raises another error, and then at the first such task, with the downloads before it done |
| `Update.PollRoundSplit` | mt_mesonet_satellite/update.py:124-130 | a round that succeeds splits its tasks, in order, into the pending and downloaded ones, losing none |
| `Update.PollRoundFailedPrefix` | mt_mesonet_satellite/update.py:125-130 | the first failing download ends the round: later tasks do not change its outcome |
| `Update.PollOnce` | mt_mesonet_satellite/update.py:124-130 | the imperative round equals the reference round |
| `Update.WaitContinues` | mt_mesonet_satellite/update.py:131-136 | a round leaving tasks pending is not the last; the next round works on exactly those tasks |
| `Update.RoundWithoutFailures` | mt_mesonet_satellite/update.py:124-130 | without errors a round succeeds and its pending and downloaded parts together are its tasks |
| `Update.WaitDownloadsEachTaskOnce` | mt_mesonet_satellite/update.py:123-136 | without errors the wait ends, every task is downloaded exactly once, within bound + 1 rounds |
| `Update.WaitAbortsOnlyOnFailure` | mt_mesonet_satellite/update.py:126-130 | an aborted wait names an input task whose download raised that error in some round |
| `Update.WaitOnTasks` | mt_mesonet_satellite/update.py:104-138 | the loop computes the reference behaviour: keep the pending sub-list each round, stop when it is empty, propagate other errors |
| `Calendar.NextDay` | mt_mesonet_satellite/update.py:36 | adding a day gives a valid, strictly later date |
| `Calendar.DateOf` | mt_mesonet_satellite/update.py:36 | every day number denotes a valid calendar date |
| `Calendar.NextDayNumber` | mt_mesonet_satellite/update.py:36 | the next day has a day number one greater, counted independently by years and months |
| `Calendar.DayNumberOfDateOf` | mt_mesonet_satellite/update.py:36 | the independent day count inverts `DateOf` |
| `Calendar.DateOfInjective` | mt_mesonet_satellite/update.py:77-80 | different day numbers are different dates |
| `Calendar.IsoWithoutDashes` | mt_mesonet_satellite/update.py:80-83 | removing `-` from `str(date)` gives YYYYMMDD |
| `Calendar.CompactDateRoundTrip` | mt_mesonet_satellite/update.py:82-84 | for years up to 9999, YYYYMMDD has eight characters and parses back to the date |
| `Text.IsSubstringIff` | mt_mesonet_satellite/update.py:66-68 | the substring test holds iff the pattern occurs at some position |
| `Neo4jConn.MergeRow` | mt_mesonet_satellite/db/Neo4jConn.py:72-78 | fails with a constraint error iff the id is stored with other attributes; otherwise the row is stored, nothing is removed or changed, and at most its station, observation and edge are added |
| `Neo4jConn.MergeRowIdempotent` | mt_mesonet_satellite/db/Neo4jConn.py:74-76 | re-posting a stored row leaves the store unchanged |
| `Neo4jConn.MergeRowAddsEdge` | mt_mesonet_satellite/db/Neo4jConn.py:75-76 | a known observation from another station or time gains one more edge instead of failing |
| `Neo4jConn.PostRowsExtends` | mt_mesonet_satellite/db/Neo4jConn.py:63-69 | posting only adds to the store and keeps every edge between stored nodes |
| `Neo4jConn.PostRowsKeepsPrefix` | mt_mesonet_satellite/db/Neo4jConn.py:63-66 | what earlier rows committed stays committed after later rows, collisions included |
| `Neo4jConn.PostRowsOutcome` | mt_mesonet_satellite/db/Neo4jConn.py:63-69 | after post, each row is stored in full or skipped, a skipped row's id holding other attributes |
| `Neo4jConn.PostRowsIds` | mt_mesonet_satellite/db/Neo4jConn.py:72-78 | every stored observation was already stored or comes from a posted row |
| `Neo4jConn.PostRowsFirstWriteWins` | mt_mesonet_satellite/db/Neo4jConn.py:65-69 | for a new id the first row carrying it is stored and never skipped |
| `Neo4jConn.PostRowsAgain` | mt_mesonet_satellite/db/Neo4jConn.py:63-69 | re-posting any prefix of the frame over the posted store changes nothing and skips the positions that prefix skipped the first time |
| `Neo4jConn.PostRowsIdempotent` | mt_mesonet_satellite/db/Neo4jConn.py:56-78 | posting a frame twice equals posting it once, with the same rows skipped |
| `Neo4jConn.DuplicateIdKeepsFirst` | mt_mesonet_satellite/db/Neo4jConn.py:65-69 | of two rows with one new id and different values the first is stored and the second skipped |
| `Neo4jConn.LoadRowsSucceeds` | mt_mesonet_satellite/db/Neo4jConn.py:104-113 | a file loads iff its ids are distinct and not already stored |
| `Neo4jConn.LoadRowsStores` | mt_mesonet_satellite/db/Neo4jConn.py:109-111 | a file that loads keeps the old store and stores every line |
| `Neo4jConn.LoadRowsIds` | mt_mesonet_satellite/db/Neo4jConn.py:110 | a file that loads adds no observation other than its own lines |
| `Neo4jConn.LoadRowsRejectsDuplicate` | mt_mesonet_satellite/db/Neo4jConn.py:110 | a repeated id fails the whole file, while post of the same rows ends with that id stored; when the id is new and the first two lines carrying it differ, post stores the first and skips the later one |
| `Neo4jConn.SelectInitFiles` | mt_mesonet_satellite/db/Neo4jConn.py:33 | exactly the files whose names start with `data_init` are loaded |
| `Neo4jConn.LoadFilesSpec` | mt_mesonet_satellite/db/Neo4jConn.py:33-35 | loading files only adds to the store; a complete load stores every line of every file |
| `Neo4jConn.LoadFilesStops` | mt_mesonet_satellite/db/Neo4jConn.py:33-35 | a failing file ends the load with its error: the files before it are committed in full, it commits nothing, and later files are not loaded |
| `Neo4jConn.MatchingEdgesExample` | mt_mesonet_satellite/db/Neo4jConn.py:83-84 | timestamps 100, 200, 300 queried over [150, 300] give exactly 200 and 300 |
| `Neo4jConn.LabelAsWrittenUnreadable` | mt_mesonet_satellite/db/Neo4jConn.py:52 | with the labels as written the `value` column holds the station name and no row reads back by label |
| `Neo4jConn.LabelAsWrittenExample` | mt_mesonet_satellite/db/Neo4jConn.py:52 | a reading of 0.5 at station S comes back with S under `value` and 0.5 under `element` |
| `Neo4jConn.LabelByNameRoundTrip` | mt_mesonet_satellite/db/Neo4jConn.py:52 | with each column labelled by its property every row reads back unchanged |
| `Neo4jConn.MesonetSatelliteDB.constructor` | mt_mesonet_satellite/db/Neo4jConn.py:9-17 | connecting gives access to the database's current content and schema; the content is a well-formed graph, and every state-changing method keeps it so (`Valid`) |
| `Neo4jConn.MesonetSatelliteDB.PostData` | mt_mesonet_satellite/db/Neo4jConn.py:66 | one transaction: the store becomes the merged store, or stays unchanged with the constraint error; the store stays well formed |
| `Neo4jConn.MesonetSatelliteDB.Post` | mt_mesonet_satellite/db/Neo4jConn.py:56-69 | the rows in frame order; the new store and the skipped positions are those of the reference fold; the store stays well formed |
| `Neo4jConn.MesonetSatelliteDB.InitIndex` | mt_mesonet_satellite/db/Neo4jConn.py:90-102 | creates the index and both constraints together, or fails leaving everything unchanged when they exist |
| `Neo4jConn.MesonetSatelliteDB.InitFile` | mt_mesonet_satellite/db/Neo4jConn.py:104-113 | one file's load commits entirely or not at all; the store stays well formed |
| `Neo4jConn.MesonetSatelliteDB.InitDb` | mt_mesonet_satellite/db/Neo4jConn.py:24-35 | schema first (failing on an initialised store), then the `data_init*` files in order, stopping at the first error with earlier files committed; the store stays well formed |
| `Neo4jConn.MesonetSatelliteDB.BuildQuery` | mt_mesonet_satellite/db/Neo4jConn.py:80-88 | returns each relationship of the station and element with timestamp in [start, end] exactly once, and nothing else |
| `Neo4jConn.MesonetSatelliteDB.Query` | mt_mesonet_satellite/db/Neo4jConn.py:37-54 | an empty answer is the length-mismatch error; otherwise one row per selected relationship, labelled by position, so `value` holds the station name and no row reads back by its labels |
| `Neo4jConn.MesonetSatelliteDB.QueryByName` | mt_mesonet_satellite/db/Neo4jConn.py:37-54 | the same selection with each column labelled by its property: every row reads back as its record, of the queried station and element, inside the window |

## Findings

| source | as written | input that shows it | evidently intended | confidence | as-written member | corrected member |
|---|---|---|---|---|---|---|
| mt_mesonet_satellite/db/Neo4jConn.py:52 | the labels value, date, station, platform, element are laid by position over `RETURN s.name, o.timestamp, obs.platform, obs.element, obs.value` | a reading of 0.5 for element E of platform P at station S: the frame holds S under `value`, P under `station`, E under `platform` and 0.5 under `element` | each column carries the property it is named after | high; not executed | `Neo4jConn.LabelAsWrittenExample` | `Neo4jConn.LabelByNameRoundTrip` |

`Neo4jConn.MesonetSatelliteDB.Query` labels as the code does (`LabelAsWritten`).
`Neo4jConn.MesonetSatelliteDB.QueryByName` labels by property (`LabelByName`).

## Left out

- The Neo4j driver, the sessions, the Cypher text, `LOAD CSV`'s file access, `close()`, and the URI and credentials. Only the effect of each statement on the abstract graph is modelled.
- Driver errors other than a uniqueness violation (connectivity, authentication). They would propagate, and they are not modelled.
- The graph always satisfies both uniqueness constraints (observations form a map keyed by id). A store written without the constraints could hold duplicate ids, and that state is not modelled.
- `Neo4jConn.MesonetSatelliteDB.PostData`: posts to a store whose schema is `NoSchema` are modelled as if the constraints held. A colliding id still gives `ConstraintError`, where Neo4j's MERGE without the constraint would create a second Observation node.
- `_init_index` puts `timestampIndex` on nodes labelled OBSERVES, not on the OBSERVES relationships, so no query uses it. An index changes no query result, so the index and both constraints form one schema flag.
- Observation values are `real` and compared only by equality. Float behaviour is not modelled: NaN is never equal to itself, so a MERGE on it would always try to create. The `toFloat`, `toString` and `toInteger` conversions of CSV text are not modelled either: rows arrive typed.
- The progress percentage printed by `post`, the printed constraint error, and the `print(f_path)` of `_init_db`. The positions of the skipped rows are returned instead of the printed error.
- pandas: a frame is a sequence of rows, and `iterrows` indices are positions. The rest of the DataFrame machinery is not modelled.
- `Neo4jConn.get_latest`, the query that builds the latest-date table, is not part of this model. `StartMissingTasks` takes that table as its input.
- `Product(x)` and its layer catalogue become the `catalog` parameter, so an unknown product code cannot fail. `Point.from_mesonet()` geometry is not part of `TaskSpec`.
- `Submit.launch`, `Submit.download` and `Session.token` are remote calls. Launching only flips a task's state, and a launch error is not modelled. Downloading is the `poll` oracle, and the files it writes are not modelled.
- `time.sleep`, directory creation, `tempfile`, `logging` and `dt.date.today()` (today is a parameter).
- `clean_all`, `to_db_format`, `update_db` and `operational_update`. They only sequence I/O and outside transformations.
- `Text.Lower`: Python's `str.lower()` is Unicode-wide. The model lowers ASCII letters only.
- `Calendar.DateOf`: day numbers have no upper bound. The overflow Python (year 9999) and pandas (year 2262) raise when a date passes their range is not modelled. `Update.TaskNameParts` assumes years up to 9999.
- `Update.WaitOnTasks`: needs a round after which no task is pending. The source's endless wait for a task that stays pending forever is not modelled.
- `Update.WaitOnTasks`: models the general rule "keep the pending sub-list" also when exactly one task is pending. With one index, `itemgetter(i)(tasks)` returns that task itself, not a tuple. `[*task]` then either raises `TypeError`, which ends the loop with the task never downloaded, or unpacks the task's own items. Which one happens depends on `Submit`, which is not part of this model.
