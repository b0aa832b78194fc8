/**
 * The observation store behind `mt_mesonet_satellite/db/Neo4jConn.py`, with its Cypher
 * statements replaced by their effect on an abstract graph: Station nodes keyed by
 * name, Observation nodes keyed by id, and OBSERVES relationships carrying a
 * timestamp.  The uniqueness constraints on both keys are part of the representation.
 */
module Neo4jConn {
  import opened Wrappers
  import opened Text
  import opened Sequences

  /** One row of the upload frame: the keyword arguments `_post_data` is called with. */
  datatype Row = Row(station: string, id: string, platform: string, element: string,
                     value: real, units: string, timestamp: int)

  /** The properties an Observation node carries besides its id. */
  datatype Attrs = Attrs(platform: string, element: string, value: real, units: string)

  /** `(s:Station {name: station})-[:OBSERVES {timestamp}]->(o:Observation {id})`. */
  datatype Edge = Edge(station: string, id: string, timestamp: int)

  datatype Graph = Graph(stations: set<string>, observations: map<string, Attrs>, edges: set<Edge>)

  datatype StoreError =
    | ConstraintError(id: string)   // the observation id is already taken
    | SchemaExists                  // an index or constraint of that name already exists

  function AttrsOf(row: Row): Attrs
  {
    Attrs(row.platform, row.element, row.value, row.units)
  }

  function EdgeOf(row: Row): Edge
  {
    Edge(row.station, row.id, row.timestamp)
  }

  /** Every relationship joins a stored station to a stored observation. */
  ghost predicate WellFormed(g: Graph)
  {
    forall e :: e in g.edges ==> e.station in g.stations && e.id in g.observations
  }

  /** The store holds everything `row` describes. */
  ghost predicate Holds(g: Graph, row: Row)
  {
    && row.station in g.stations
    && row.id in g.observations && g.observations[row.id] == AttrsOf(row)
    && EdgeOf(row) in g.edges
  }

  /** `h` keeps everything of `g`: no node or relationship is removed and no observation changed. */
  ghost predicate Extends(g: Graph, h: Graph)
  {
    && g.stations <= h.stations
    && g.edges <= h.edges
    && forall id :: id in g.observations ==> id in h.observations && h.observations[id] == g.observations[id]
  }

  lemma ExtendsTransitive(a: Graph, b: Graph, c: Graph)
    requires Extends(a, b) && Extends(b, c)
    ensures Extends(a, c)
  {
  }

  /** The id of `row` is stored with other attributes. */
  predicate Collides(g: Graph, row: Row)
  {
    row.id in g.observations && g.observations[row.id] != AttrsOf(row)
  }

  /** Adds the row's station, observation and relationship; set and map union make each MERGE a no-op when present. */
  function Insert(g: Graph, row: Row): Graph
  {
    Graph(g.stations + {row.station}, g.observations[row.id := AttrsOf(row)], g.edges + {EdgeOf(row)})
  }

  // ---------------------------------------------------------------------------
  // _post_data and post

  /**
   * `_post_data`: MERGE the station, MERGE the observation on all five of its
   * properties, MERGE the relationship; one transaction.  An observation whose id is
   * stored with different properties cannot be created, and the transaction fails.
   */
  function MergeRow(g: Graph, row: Row): (r: Result<Graph, StoreError>)
    ensures r.Err? <==> Collides(g, row)
    ensures r.Err? ==> r.error == ConstraintError(row.id)
    ensures r.Ok? ==> Holds(r.value, row) && Extends(g, r.value)
    ensures r.Ok? ==> && r.value.stations - g.stations <= {row.station}
                      && r.value.observations.Keys - g.observations.Keys <= {row.id}
                      && r.value.edges - g.edges <= {EdgeOf(row)}
    ensures r.Ok? && WellFormed(g) ==> WellFormed(r.value)
  {
    if Collides(g, row) then Err(ConstraintError(row.id)) else Ok(Insert(g, row))
  }

  /** Posting a row the store already holds changes nothing. */
  lemma MergeRowIdempotent(g: Graph, row: Row)
    requires Holds(g, row)
    ensures MergeRow(g, row) == Ok(g)
  {
    assert g.stations + {row.station} == g.stations;
    assert g.edges + {EdgeOf(row)} == g.edges;
    assert g.observations[row.id := AttrsOf(row)] == g.observations;
  }

  /** A known observation seen again from another station or at another time gains one more relationship. */
  lemma MergeRowAddsEdge(g: Graph, row: Row)
    requires row.id in g.observations && g.observations[row.id] == AttrsOf(row)
    requires EdgeOf(row) !in g.edges
    ensures MergeRow(g, row).Ok?
    ensures MergeRow(g, row).value.edges == g.edges + {EdgeOf(row)}
    ensures MergeRow(g, row).value.observations == g.observations
  {
    assert g.observations[row.id := AttrsOf(row)] == g.observations;
  }

  /** The store after `post`, and the frame positions of the rows whose transaction raised `ConstraintError`. */
  datatype PostResult = PostResult(graph: Graph, skipped: seq<nat>)

  /** `post`: the rows in frame order, each in its own transaction; a constraint error skips that row only. */
  function PostRows(g: Graph, rows: seq<Row>): PostResult
  {
    if rows == [] then PostResult(g, [])
    else
      var before := PostRows(g, rows[..|rows| - 1]);
      match MergeRow(before.graph, rows[|rows| - 1])
      case Ok(h) => PostResult(h, before.skipped)
      case Err(_) => PostResult(before.graph, before.skipped + [|rows| - 1])
  }

  /** Posting only ever adds to the store, and keeps it well formed. */
  lemma {:induction false} PostRowsExtends(g: Graph, rows: seq<Row>)
    ensures Extends(g, PostRows(g, rows).graph)
    ensures WellFormed(g) ==> WellFormed(PostRows(g, rows).graph)
  {
    if rows != [] {
      PostRowsExtends(g, rows[..|rows| - 1]);
      var before := PostRows(g, rows[..|rows| - 1]);
      if MergeRow(before.graph, rows[|rows| - 1]).Ok? {
        ExtendsTransitive(g, before.graph, PostRows(g, rows).graph);
      }
    }
  }

  /** What the first `n` rows committed is still in the store after all the rows. */
  lemma {:induction false} PostRowsKeepsPrefix(g: Graph, rows: seq<Row>, n: nat)
    requires n <= |rows|
    ensures Extends(PostRows(g, rows[..n]).graph, PostRows(g, rows).graph)
    decreases |rows| - n
  {
    if n == |rows| {
      assert rows[..n] == rows;
    } else {
      var m := rows[..n + 1];
      assert m[..|m| - 1] == rows[..n];
      PostRowsKeepsPrefix(g, rows, n + 1);
      ExtendsTransitive(PostRows(g, rows[..n]).graph, PostRows(g, m).graph, PostRows(g, rows).graph);
    }
  }

  /**
   * After `post`, every row is either stored in full or was skipped, and a skipped
   * row's id is stored with other attributes: nothing is overwritten.
   */
  lemma {:induction false} PostRowsOutcome(g: Graph, rows: seq<Row>)
    ensures var p := PostRows(g, rows);
            forall i :: 0 <= i < |rows| ==>
              (i in p.skipped ==> Collides(p.graph, rows[i])) && (i !in p.skipped ==> Holds(p.graph, rows[i]))
    ensures forall i :: i in PostRows(g, rows).skipped ==> i < |rows|
  {
    if rows != [] {
      var init := rows[..|rows| - 1];
      PostRowsOutcome(g, init);
      var before := PostRows(g, init);
      var p := PostRows(g, rows);
      PostRowsKeepsPrefix(g, rows, |rows| - 1);
      assert Extends(before.graph, p.graph);
      forall i | 0 <= i < |rows|
        ensures (i in p.skipped ==> Collides(p.graph, rows[i])) && (i !in p.skipped ==> Holds(p.graph, rows[i]))
      {
        if i < |init| {
          assert rows[i] == init[i];
        }
      }
    }
  }

  /** Observations only come from the store or from the posted rows. */
  lemma {:induction false} PostRowsIds(g: Graph, rows: seq<Row>, id: string)
    requires id in PostRows(g, rows).graph.observations
    ensures id in g.observations || exists i :: 0 <= i < |rows| && rows[i].id == id
  {
    if rows != [] {
      var init := rows[..|rows| - 1];
      var before := PostRows(g, init);
      if id in before.graph.observations {
        PostRowsIds(g, init, id);
        if !(id in g.observations) {
          var i :| 0 <= i < |init| && init[i].id == id;
          assert rows[i].id == id;
        }
      } else {
        assert rows[|rows| - 1].id == id;
      }
    }
  }

  /** For a new id, the first row carrying it decides the stored observation; later conflicting rows are skipped. */
  lemma {:induction false} PostRowsFirstWriteWins(g: Graph, rows: seq<Row>, i: nat)
    requires i < |rows| && rows[i].id !in g.observations
    requires forall j :: 0 <= j < i ==> rows[j].id != rows[i].id
    ensures var p := PostRows(g, rows);
            && i !in p.skipped
            && rows[i].id in p.graph.observations
            && p.graph.observations[rows[i].id] == AttrsOf(rows[i])
  {
    var init := rows[..|rows| - 1];
    var before := PostRows(g, init);
    if i == |rows| - 1 {
      if rows[i].id in before.graph.observations {
        PostRowsIds(g, init, rows[i].id);
        assert false;
      }
      PostRowsOutcome(g, init);
    } else {
      assert init[i] == rows[i];
      PostRowsFirstWriteWins(g, init, i);
      PostRowsKeepsPrefix(g, rows, |rows| - 1);
      assert rows[..|rows| - 1] == init;
    }
  }

  /** The skipped positions of a second `post` of the same frame are those of the first. */
  lemma {:induction false} PostRowsAgain(g: Graph, rows: seq<Row>, n: nat)
    requires n <= |rows|
    ensures PostRows(PostRows(g, rows).graph, rows[..n]) == PostResult(PostRows(g, rows).graph, PostRows(g, rows[..n]).skipped)
  {
    var f := PostRows(g, rows).graph;
    if n == 0 {
      assert rows[..0] == [];
    } else {
      var m := rows[..n];
      assert m[..|m| - 1] == rows[..n - 1];
      PostRowsAgain(g, rows, n - 1);
      var row := rows[n - 1];
      var before := PostRows(g, rows[..n - 1]);
      PostRowsKeepsPrefix(g, rows, n - 1);
      PostRowsKeepsPrefix(g, rows, n);
      if MergeRow(before.graph, row).Ok? {
        MergeRowIdempotent(f, row);
      }
    }
  }

  /** `post` is idempotent: posting the same frame twice leaves the store as posting it once, with the same rows skipped. */
  lemma PostRowsIdempotent(g: Graph, rows: seq<Row>)
    ensures PostRows(PostRows(g, rows).graph, rows) == PostRows(g, rows)
  {
    PostRowsAgain(g, rows, |rows|);
    assert rows[..|rows|] == rows;
  }

  /** Two rows with one new id and different values: the first is stored, the second is skipped. */
  lemma DuplicateIdKeepsFirst(g: Graph, a: Row, b: Row)
    requires a.id == b.id && a.id !in g.observations && AttrsOf(a) != AttrsOf(b)
    ensures PostRows(g, [a, b]).skipped == [1]
    ensures PostRows(g, [a, b]).graph.observations[a.id] == AttrsOf(a)
  {
    assert [a, b][..1] == [a];
    assert [a][..0] == [];
    var first := PostRows(g, [a]);
    assert PostRows(g, []) == PostResult(g, []);
    assert MergeRow(g, a) == Ok(Insert(g, a));
    assert first == PostResult(Insert(g, a), []);
    assert Collides(first.graph, b);
  }

  // ---------------------------------------------------------------------------
  // _init_index, _init_db and init_db

  /** `_init_db`'s CREATE of one CSV line: the id must be unused. */
  function CreateRow(g: Graph, row: Row): Result<Graph, StoreError>
  {
    if row.id in g.observations then Err(ConstraintError(row.id)) else Ok(Insert(g, row))
  }

  /** `_init_db`: every line of one file in a single transaction; any error rolls the whole file back. */
  function LoadRows(g: Graph, rows: seq<Row>): Result<Graph, StoreError>
  {
    if rows == [] then Ok(g)
    else
      match LoadRows(g, rows[..|rows| - 1])
      case Err(e) => Err(e)
      case Ok(h) => CreateRow(h, rows[|rows| - 1])
  }

  /** The observation ids of `rows`, in order. */
  function IdsOf(rows: seq<Row>): (ids: seq<string>)
    ensures |ids| == |rows| && forall i :: 0 <= i < |rows| ==> ids[i] == rows[i].id
  {
    seq(|rows|, i requires 0 <= i < |rows| => rows[i].id)
  }

  ghost predicate DistinctIds(rows: seq<Row>)
  {
    NoDuplicates(IdsOf(rows))
  }

  /** Appending a row keeps the ids distinct exactly when its id is not among the earlier ones. */
  lemma DistinctIdsSnoc(rows: seq<Row>)
    requires rows != []
    ensures DistinctIds(rows) <==>
              DistinctIds(rows[..|rows| - 1]) && forall i :: 0 <= i < |rows| - 1 ==> rows[i].id != rows[|rows| - 1].id
  {
    var ids, init := IdsOf(rows), IdsOf(rows[..|rows| - 1]);
    assert init == ids[..|ids| - 1];
  }

  /** The observations a successful bulk load stores were stored before or come from its rows. */
  lemma {:induction false} LoadRowsIds(g: Graph, rows: seq<Row>)
    ensures LoadRows(g, rows).Ok? ==>
              forall id :: id in LoadRows(g, rows).value.observations ==>
                id in g.observations || exists i :: 0 <= i < |rows| && rows[i].id == id
  {
    if rows != [] {
      var init := rows[..|rows| - 1];
      LoadRowsIds(g, init);
      assert forall i :: 0 <= i < |init| ==> init[i] == rows[i];
    }
  }

  /** A bulk load succeeds exactly when its ids are pairwise distinct and all new. */
  lemma {:induction false} LoadRowsSucceeds(g: Graph, rows: seq<Row>)
    ensures LoadRows(g, rows).Ok? <==> DistinctIds(rows) && forall i :: 0 <= i < |rows| ==> rows[i].id !in g.observations
  {
    if rows == [] {
      assert IdsOf(rows) == [];
    } else {
      var init, last := rows[..|rows| - 1], rows[|rows| - 1];
      LoadRowsSucceeds(g, init);
      LoadRowsStores(g, init);
      LoadRowsIds(g, init);
      DistinctIdsSnoc(rows);
      assert forall i :: 0 <= i < |init| ==> init[i] == rows[i];
      var before := LoadRows(g, init);
      if before.Ok? {
        var h := before.value;
        if last.id in h.observations && last.id !in g.observations {
          var i :| 0 <= i < |init| && init[i].id == last.id;
          assert rows[i].id == rows[|rows| - 1].id;
        }
      }
    }
  }

  /** A bulk load that succeeds keeps the old store and stores every row. */
  lemma {:induction false} LoadRowsStores(g: Graph, rows: seq<Row>)
    ensures LoadRows(g, rows).Ok? ==> var h := LoadRows(g, rows).value;
              && Extends(g, h)
              && (forall i :: 0 <= i < |rows| ==> Holds(h, rows[i]))
              && (WellFormed(g) ==> WellFormed(h))
  {
    if rows != [] {
      var init, last := rows[..|rows| - 1], rows[|rows| - 1];
      LoadRowsStores(g, init);
      assert forall i :: 0 <= i < |init| ==> init[i] == rows[i];
    }
  }

  /** The named index and both uniqueness constraints, created together by `_init_index`. */
  datatype Schema = NoSchema | IndexAndConstraints

  /** The files `Path(f_dir).glob("data_init*")` lists, each with its CSV lines. */
  datatype DataFile = DataFile(name: string, rows: seq<Row>)

  function SelectInitFiles(files: seq<DataFile>): (r: seq<DataFile>)
    ensures forall f :: f in r <==> f in files && StartsWith("data_init", f.name)
  {
    if files == [] then []
    else (if StartsWith("data_init", files[0].name) then [files[0]] else []) + SelectInitFiles(files[1..])
  }

  /** The store after loading some files, and the error that stopped the load, if any. */
  datatype LoadResult = LoadResult(graph: Graph, error: Option<StoreError>)

  /** `for f in ...: session.write_transaction(self._init_db, f_path)`: an error propagates and later files are not loaded. */
  function LoadFiles(g: Graph, files: seq<DataFile>): LoadResult
    decreases |files|
  {
    if files == [] then LoadResult(g, None)
    else
      match LoadRows(g, files[0].rows)
      case Err(e) => LoadResult(g, Some(e))
      case Ok(h) => LoadFiles(h, files[1..])
  }

  /** Loading files only adds to the store; a complete load stores every line of every file. */
  lemma {:induction false} LoadFilesSpec(g: Graph, files: seq<DataFile>)
    ensures Extends(g, LoadFiles(g, files).graph)
    ensures WellFormed(g) ==> WellFormed(LoadFiles(g, files).graph)
    ensures LoadFiles(g, files).error.None? ==>
              forall f, row :: f in files && row in f.rows ==> Holds(LoadFiles(g, files).graph, row)
    decreases |files|
  {
    if files != [] {
      LoadRowsStores(g, files[0].rows);
      var first := LoadRows(g, files[0].rows);
      if first.Ok? {
        LoadFilesSpec(first.value, files[1..]);
        ExtendsTransitive(g, first.value, LoadFiles(first.value, files[1..]).graph);
        var h, result := first.value, LoadFiles(g, files).graph;
        forall f, row | f in files && row in f.rows && LoadFiles(g, files).error.None?
          ensures Holds(result, row)
        {
          if f == files[0] {
            var i :| 0 <= i < |f.rows| && f.rows[i] == row;
            assert Holds(h, row);
          } else {
            assert f in files[1..];
          }
        }
      }
    }
  }

  /**
   * A failing file ends the load: every file before it loaded in full, the failing one
   * committed nothing, and no later file was attempted.
   */
  lemma {:induction false} LoadFilesStops(g: Graph, files: seq<DataFile>)
    ensures LoadFiles(g, files).error.Some? ==>
              exists k :: 0 <= k < |files|
                && LoadFiles(g, files[..k]).error.None?
                && LoadRows(LoadFiles(g, files[..k]).graph, files[k].rows).Err?
                && LoadFiles(g, files).error == Some(LoadRows(LoadFiles(g, files[..k]).graph, files[k].rows).error)
                && LoadFiles(g, files).graph == LoadFiles(g, files[..k]).graph
    decreases |files|
  {
    if files != [] {
      var first := LoadRows(g, files[0].rows);
      if first.Err? {
        assert files[..0] == [];
      } else if LoadFiles(g, files).error.Some? {
        var h := first.value;
        LoadFilesStops(h, files[1..]);
        var k' :| 0 <= k' < |files[1..]|
                  && LoadFiles(h, files[1..][..k']).error.None?
                  && LoadRows(LoadFiles(h, files[1..][..k']).graph, files[1..][k'].rows).Err?
                  && LoadFiles(h, files[1..]).error == Some(LoadRows(LoadFiles(h, files[1..][..k']).graph, files[1..][k'].rows).error)
                  && LoadFiles(h, files[1..]).graph == LoadFiles(h, files[1..][..k']).graph;
        var prefix := files[..k' + 1];
        assert prefix[0] == files[0] && prefix[1..] == files[1..][..k'];
        assert LoadFiles(g, prefix) == LoadFiles(h, files[1..][..k']);
        assert files[k' + 1] == files[1..][k'];
      }
    }
  }

  /**
   * A bulk load meeting an id twice fails as a whole, while `post` of the same rows ends
   * with that id stored; when the id is new and the two lines differ, `post` keeps the
   * first line and skips the later one.
   */
  lemma LoadRowsRejectsDuplicate(g: Graph, rows: seq<Row>, i: nat, j: nat)
    requires i < j < |rows| && rows[i].id == rows[j].id
    ensures LoadRows(g, rows).Err?
    ensures PostRows(g, rows).graph.observations.Keys >= {rows[i].id}
    ensures rows[i].id !in g.observations && (forall k :: 0 <= k < i ==> rows[k].id != rows[i].id)
            && AttrsOf(rows[i]) != AttrsOf(rows[j]) ==>
              && PostRows(g, rows).graph.observations[rows[i].id] == AttrsOf(rows[i])
              && j in PostRows(g, rows).skipped
  {
    LoadRowsSucceeds(g, rows);
    PostRowsOutcome(g, rows);
    if rows[i].id !in g.observations && (forall k :: 0 <= k < i ==> rows[k].id != rows[i].id) {
      PostRowsFirstWriteWins(g, rows, i);
    }
  }

  // ---------------------------------------------------------------------------
  // query and _build_query

  /** One record of `_build_query`: `RETURN s.name, o.timestamp, obs.platform, obs.element, obs.value`. */
  datatype QueryRow = QueryRow(stationName: string, timestamp: int, platform: string, element: string, value: real)

  /** The relationships the MATCH ... WHERE clause selects; the time window is inclusive at both ends. */
  function MatchingEdges(g: Graph, station: string, startTime: int, endTime: int, element: string): set<Edge>
  {
    set e | e in g.edges && e.id in g.observations
              && startTime <= e.timestamp && e.timestamp <= endTime
              && e.station == station && g.observations[e.id].element == element
  }

  function Project(g: Graph, e: Edge): QueryRow
    requires e.id in g.observations
  {
    var o := g.observations[e.id];
    QueryRow(e.station, e.timestamp, o.platform, o.element, o.value)
  }

  /** The example of timestamps 100, 200 and 300 queried over [150, 300]: exactly the last two are returned. */
  lemma MatchingEdgesExample(station: string, element: string, o1: string, o2: string, o3: string)
    requires o1 != o2 && o2 != o3 && o1 != o3
    ensures var a := Attrs("P", element, 0.0, "u");
            var g := Graph({station}, map[o1 := a, o2 := a, o3 := a],
                           {Edge(station, o1, 100), Edge(station, o2, 200), Edge(station, o3, 300)});
            MatchingEdges(g, station, 150, 300, element) == {Edge(station, o2, 200), Edge(station, o3, 300)}
  {
  }

  /** A cell of the pandas frame. */
  datatype Cell = Str(s: string) | Int(i: int) | Num(x: real)

  /** A row of the frame `query` returns, by column label. */
  datatype FrameRow = FrameRow(value: Cell, date: Cell, station: Cell, platform: Cell, element: Cell)

  /** `dat.columns = ["value", "date", "station", "platform", "element"]` laid over the RETURN order, as written. */
  function LabelAsWritten(q: QueryRow): FrameRow
  {
    FrameRow(Str(q.stationName), Int(q.timestamp), Str(q.platform), Str(q.element), Num(q.value))
  }

  /** Each column labelled with the property it holds. */
  function LabelByName(q: QueryRow): FrameRow
  {
    FrameRow(Num(q.value), Int(q.timestamp), Str(q.stationName), Str(q.platform), Str(q.element))
  }

  /** Reads an observation back out of a frame row by its column labels. */
  function ReadByName(f: FrameRow): Option<QueryRow>
  {
    if f.value.Num? && f.date.Int? && f.station.Str? && f.platform.Str? && f.element.Str?
    then Some(QueryRow(f.station.s, f.date.i, f.platform.s, f.element.s, f.value.x))
    else None
  }

  /** With the labels as written, no row can be read back by its labels: `value` holds the station name. */
  lemma LabelAsWrittenUnreadable(q: QueryRow)
    ensures LabelAsWritten(q).value == Str(q.stationName)
    ensures ReadByName(LabelAsWritten(q)) == None
  {
  }

  /** The input that shows it: a reading of 0.5 at station "S" comes back with "S" under `value`. */
  lemma LabelAsWrittenExample()
    ensures LabelAsWritten(QueryRow("S", 100, "P", "E", 0.5)).value == Str("S")
    ensures LabelAsWritten(QueryRow("S", 100, "P", "E", 0.5)).element == Num(0.5)
  {
  }

  /** With the labels by name every row reads back unchanged. */
  lemma LabelByNameRoundTrip(q: QueryRow)
    ensures ReadByName(LabelByName(q)) == Some(q)
  {
  }

  datatype QueryError = LengthMismatch   // pandas refuses five labels for a frame without columns

  // ---------------------------------------------------------------------------
  // The connection object

  /**
   * `MesonetSatelliteDB`: the state of the database the driver is connected to.  The
   * driver itself, its sessions and `close()` are not modelled.
   */
  class MesonetSatelliteDB {
    var stations: set<string>
    var observations: map<string, Attrs>
    var edges: set<Edge>
    var schema: Schema

    function State(): Graph
      reads this
    {
      Graph(stations, observations, edges)
    }

    /** The store a database holds: every relationship joins a stored station to a stored observation. */
    ghost predicate Valid()
      reads this
    {
      WellFormed(State())
    }

    /** Connecting to a database with content `g` and schema `s`. */
    constructor (g: Graph, s: Schema)
      requires WellFormed(g)
      ensures Valid()
      ensures State() == g && schema == s
    {
      stations, observations, edges := g.stations, g.observations, g.edges;
      schema := s;
    }

    /** `_post_data` run in `session.write_transaction`: either commits all three MERGEs or nothing. */
    method PostData(row: Row) returns (r: Result<(), StoreError>)
      requires Valid()
      modifies this
      ensures Valid()
      ensures MergeRow(old(State()), row).Ok? ==> r == Ok(()) && State() == MergeRow(old(State()), row).value
      ensures MergeRow(old(State()), row).Err? ==> r == Err(MergeRow(old(State()), row).error) && State() == old(State())
      ensures schema == old(schema)
    {
      var m := MergeRow(State(), row);
      match m {
        case Ok(g) =>
          stations, observations, edges := g.stations, g.observations, g.edges;
          r := Ok(());
        case Err(e) =>
          r := Err(e);
      }
    }

    /** `post`: the frame's rows in order; a `ConstraintError` is reported (`skipped`) and the loop goes on. */
    method Post(rows: seq<Row>) returns (skipped: seq<nat>)
      requires Valid()
      modifies this
      ensures Valid()
      ensures PostResult(State(), skipped) == PostRows(old(State()), rows)
      ensures schema == old(schema)
    {
      skipped := [];
      for i := 0 to |rows|
        invariant Valid()
        invariant PostResult(State(), skipped) == PostRows(old(State()), rows[..i])
        invariant schema == old(schema)
      {
        assert rows[..i + 1][..i] == rows[..i];
        var r := PostData(rows[i]);
        if r.Err? {
          skipped := skipped + [i];
        }
      }
      assert rows[..|rows|] == rows;
    }

    /** `_init_index`: `CREATE INDEX` and two `CREATE CONSTRAINT`, none with `IF NOT EXISTS`. */
    method InitIndex() returns (r: Result<(), StoreError>)
      requires Valid()
      modifies this
      ensures Valid()
      ensures old(schema) == IndexAndConstraints ==> r == Err(SchemaExists) && schema == old(schema)
      ensures old(schema) == NoSchema ==> r == Ok(()) && schema == IndexAndConstraints
      ensures State() == old(State())
    {
      if schema == IndexAndConstraints {
        r := Err(SchemaExists);
      } else {
        schema := IndexAndConstraints;
        r := Ok(());
      }
    }

    /** `_init_db` run in its own `write_transaction`. */
    method InitFile(rows: seq<Row>) returns (r: Result<(), StoreError>)
      requires Valid()
      modifies this
      ensures Valid()
      ensures LoadRows(old(State()), rows).Ok? ==> r == Ok(()) && State() == LoadRows(old(State()), rows).value
      ensures LoadRows(old(State()), rows).Err? ==> r == Err(LoadRows(old(State()), rows).error) && State() == old(State())
      ensures schema == old(schema)
    {
      var loaded := LoadRows(State(), rows);
      LoadRowsStores(State(), rows);
      match loaded {
        case Ok(g) =>
          stations, observations, edges := g.stations, g.observations, g.edges;
          r := Ok(());
        case Err(e) =>
          r := Err(e);
      }
    }

    /**
     * `init_db`: create the schema first (failing on a store that has it already), then
     * load the `data_init*` files one transaction each, stopping at the first error.
     */
    method InitDb(files: seq<DataFile>) returns (r: Option<StoreError>)
      requires Valid()
      modifies this
      ensures Valid()
      ensures old(schema) == IndexAndConstraints ==>
                r == Some(SchemaExists) && State() == old(State()) && schema == old(schema)
      ensures old(schema) == NoSchema ==>
                && schema == IndexAndConstraints
                && LoadResult(State(), r) == LoadFiles(old(State()), SelectInitFiles(files))
    {
      var created := InitIndex();
      if created.Err? {
        return Some(created.error);
      }
      var selected := SelectInitFiles(files);
      ghost var g0 := State();
      for i := 0 to |selected|
        invariant Valid()
        invariant schema == IndexAndConstraints
        invariant LoadFiles(g0, selected) == LoadFiles(State(), selected[i..])
      {
        var loaded := InitFile(selected[i].rows);
        assert selected[i..][1..] == selected[i + 1..];
        if loaded.Err? {
          return Some(loaded.error);
        }
      }
      r := None;
    }

    /** `_build_query`: the selected relationships, in the store's arbitrary order, each once. */
    method BuildQuery(station: string, startTime: int, endTime: int, element: string)
      returns (rows: seq<QueryRow>, ghost matched: seq<Edge>)
      ensures forall e :: e in matched <==> e in MatchingEdges(State(), station, startTime, endTime, element)
      ensures NoDuplicates(matched)
      ensures |rows| == |matched|
      ensures forall i :: 0 <= i < |rows| ==> matched[i].id in observations && rows[i] == Project(State(), matched[i])
      ensures forall i :: 0 <= i < |rows| ==>
                rows[i].stationName == station && rows[i].element == element
                && startTime <= rows[i].timestamp <= endTime
    {
      var remaining := MatchingEdges(State(), station, startTime, endTime, element);
      rows, matched := [], [];
      while remaining != {}
        invariant remaining <= MatchingEdges(State(), station, startTime, endTime, element)
        invariant forall e :: e in matched <==> e in MatchingEdges(State(), station, startTime, endTime, element) && e !in remaining
        invariant NoDuplicates(matched)
        invariant |rows| == |matched|
        invariant forall i :: 0 <= i < |rows| ==> matched[i].id in observations && rows[i] == Project(State(), matched[i])
        invariant forall i :: 0 <= i < |rows| ==>
                    rows[i].stationName == station && rows[i].element == element
                    && startTime <= rows[i].timestamp <= endTime
        decreases remaining
      {
        var e :| e in remaining;
        rows := rows + [Project(State(), e)];
        matched := matched + [e];
        remaining := remaining - {e};
      }
    }

    /**
     * `query`: the selected records as a labelled frame.  An empty answer makes pandas
     * reject the five labels.  The labels are laid by position over the RETURN order, so
     * `value` holds the station name and no row reads back by its labels.
     */
    method Query(station: string, startTime: int, endTime: int, element: string)
      returns (r: Result<seq<FrameRow>, QueryError>, ghost matched: seq<Edge>)
      ensures r.Err? <==> MatchingEdges(State(), station, startTime, endTime, element) == {}
      ensures forall e :: e in matched <==> e in MatchingEdges(State(), station, startTime, endTime, element)
      ensures NoDuplicates(matched)
      ensures r.Ok? ==> |r.value| == |matched| && forall i :: 0 <= i < |matched| ==>
                matched[i].id in observations && r.value[i] == LabelAsWritten(Project(State(), matched[i]))
      ensures r.Ok? ==> forall i :: 0 <= i < |r.value| ==>
                r.value[i].value == Str(station) && ReadByName(r.value[i]) == None
    {
      var rows;
      rows, matched := BuildQuery(station, startTime, endTime, element);
      if |rows| == 0 {
        assert forall e :: e !in MatchingEdges(State(), station, startTime, endTime, element);
        return Err(LengthMismatch), matched;
      }
      assert matched[0] in MatchingEdges(State(), station, startTime, endTime, element);
      r := Ok(seq(|rows|, i requires 0 <= i < |rows| => LabelAsWritten(rows[i])));
    }

    /**
     * `query` with each column labelled by the property it holds: every row reads back as
     * the selected record, of the queried station and element, inside the window.
     */
    method QueryByName(station: string, startTime: int, endTime: int, element: string)
      returns (r: Result<seq<FrameRow>, QueryError>, ghost matched: seq<Edge>)
      ensures r.Err? <==> MatchingEdges(State(), station, startTime, endTime, element) == {}
      ensures forall e :: e in matched <==> e in MatchingEdges(State(), station, startTime, endTime, element)
      ensures NoDuplicates(matched)
      ensures r.Ok? ==> |r.value| == |matched| && forall i :: 0 <= i < |matched| ==>
                matched[i].id in observations && ReadByName(r.value[i]) == Some(Project(State(), matched[i]))
      ensures r.Ok? ==> forall i :: 0 <= i < |r.value| ==>
                r.value[i].station == Str(station) && r.value[i].element == Str(element)
                && r.value[i].date.Int? && startTime <= r.value[i].date.i <= endTime
    {
      var rows;
      rows, matched := BuildQuery(station, startTime, endTime, element);
      if |rows| == 0 {
        assert forall e :: e !in MatchingEdges(State(), station, startTime, endTime, element);
        return Err(LengthMismatch), matched;
      }
      assert matched[0] in MatchingEdges(State(), station, startTime, endTime, element);
      r := Ok(seq(|rows|, i requires 0 <= i < |rows| => LabelByName(rows[i])));
      forall i | 0 <= i < |rows|
        ensures ReadByName(r.value[i]) == Some(rows[i])
      {
        LabelByNameRoundTrip(rows[i]);
      }
    }
  }
}
