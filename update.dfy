/**
 * The gap-filling cycle of `mt_mesonet_satellite/update.py`: advance each product's
 * latest stored date by one day, plan one extraction task per product from the
 * product's layer catalogue, and poll the launched tasks round by round until none
 * is pending.  The remote extraction service is reduced to its observable answers.
 */
module Update {
  import opened Wrappers
  import opened Text
  import opened Calendar
  import opened Sequences

  /** One row of the per-product table: a product code, one of its elements, and a date. */
  datatype GapRow = GapRow(platform: string, element: string, date: DayNumber)

  /** Layer-name fragments that mark auxiliary statistical layers, never requested. */
  const RmStrings: seq<string> := ["_pft", "_std_", "StdDev"]

  // ---------------------------------------------------------------------------
  // find_missing_data

  /** The table of latest dates with every `date` moved forward by one day. */
  function FindMissingData(latest: seq<GapRow>): (missing: seq<GapRow>)
    ensures |missing| == |latest|
    ensures forall i :: 0 <= i < |latest| ==>
              && missing[i].platform == latest[i].platform
              && missing[i].element == latest[i].element
              && DateOf(missing[i].date) == NextDay(DateOf(latest[i].date))
  {
    if latest == [] then []
    else [latest[0].(date := latest[0].date + 1)] + FindMissingData(latest[1..])
  }

  function PlatformsOf(rows: seq<GapRow>): set<string>
  {
    set r | r in rows :: r.platform
  }

  /** A product is in the gap table exactly when it was in the table of latest dates. */
  lemma FindMissingDataKeepsPlatforms(latest: seq<GapRow>)
    ensures PlatformsOf(FindMissingData(latest)) == PlatformsOf(latest)
  {
    var missing := FindMissingData(latest);
    forall p | p in PlatformsOf(latest) ensures p in PlatformsOf(missing) {
      var i :| 0 <= i < |latest| && latest[i].platform == p;
      assert missing[i] in missing;
    }
    forall p | p in PlatformsOf(missing) ensures p in PlatformsOf(latest) {
      var i :| 0 <= i < |missing| && missing[i].platform == p;
      assert latest[i] in latest;
    }
  }

  // ---------------------------------------------------------------------------
  // start_missing_tasks: layer selection

  /** `missing[missing["platform"] == p]`: the rows of one product, in table order. */
  function RowsFor(rows: seq<GapRow>, p: string): (sub: seq<GapRow>)
    ensures forall r :: r in sub <==> r in rows && r.platform == p
  {
    if rows == [] then []
    else if rows[0].platform == p then [rows[0]] + RowsFor(rows[1..], p)
    else RowsFor(rows[1..], p)
  }

  /** `sub["date"].drop_duplicates()`, as a set. */
  function StartDates(sub: seq<GapRow>): set<DayNumber>
  {
    set r | r in sub :: r.date
  }

  /** The element name occurs in the layer name, ignoring (ASCII) case. */
  predicate MatchesElement(layer: string, element: string)
  {
    IsSubstring(Lower(element), Lower(layer))
  }

  /** `re.search("|".join(RM_STRINGS), layer)`: some deny-list fragment occurs, case-sensitively. */
  predicate IsExcluded(layer: string)
  {
    exists i :: 0 <= i < |RmStrings| && IsSubstring(RmStrings[i], layer)
  }

  /** The layers one element contributes: non-QA, matching the element, not deny-listed. */
  function LayersForElement(layers: map<string, bool>, element: string): set<string>
  {
    set k | k in layers && MatchesElement(k, element) && !layers[k] && !IsExcluded(k)
  }

  /** What a product's task must request: a non-QA, non-deny-listed layer matching one of its rows' elements. */
  ghost predicate Selected(layers: map<string, bool>, k: string, sub: seq<GapRow>)
  {
    && k in layers && !layers[k] && !IsExcluded(k)
    && exists r :: r in sub && MatchesElement(k, r.element)
  }

  lemma SelectedAvoidsDenyList(layers: map<string, bool>, k: string, sub: seq<GapRow>)
    requires Selected(layers, k, sub)
    ensures !IsSubstring("_pft", k) && !IsSubstring("_std_", k) && !IsSubstring("StdDev", k)
  {
    assert RmStrings[0] == "_pft" && RmStrings[1] == "_std_" && RmStrings[2] == "StdDev";
  }

  lemma StatisticalVariantsExcluded()
    ensures IsExcluded("NDVI_std_dev") && IsExcluded("NDVI_pft")
  {
    assert IsSubstring(RmStrings[1], "NDVI_std_dev") by {
      assert "NDVI_std_dev"[1..][1..][1..][1..][..5] == "_std_";
    }
    assert IsSubstring(RmStrings[0], "NDVI_pft") by {
      assert "NDVI_pft"[1..][1..][1..][1..][..4] == "_pft";
    }
  }

  lemma PlainLayerSelected()
    ensures !IsExcluded("NDVI") && MatchesElement("NDVI", "NDVI")
  {
    assert "NDVI"[..4][0] != "_pft"[0];
    assert "NDVI"[1..] == "DVI";
    assert !IsSubstring(RmStrings[0], "NDVI");
    assert !IsSubstring(RmStrings[1], "NDVI");
    assert !IsSubstring(RmStrings[2], "NDVI");
    assert Lower("NDVI") == "ndvi";
    assert "ndvi"[..4] == "ndvi";
  }

  /** Of "NDVI", "NDVI_std_dev" and "NDVI_pft", all non-QA, the element "NDVI" selects only "NDVI". */
  lemma LayerFilterExample()
    ensures LayersForElement(map["NDVI" := false, "NDVI_std_dev" := false, "NDVI_pft" := false], "NDVI") == {"NDVI"}
  {
    var layers := map["NDVI" := false, "NDVI_std_dev" := false, "NDVI_pft" := false];
    StatisticalVariantsExcluded();
    PlainLayerSelected();
    assert layers.Keys == {"NDVI", "NDVI_std_dev", "NDVI_pft"};
  }

  /** `list(set(layers))`: the members of `s` in some order, each once. */
  method ListOfSet(s: set<string>) returns (xs: seq<string>)
    ensures NoDuplicates(xs)
    ensures forall x :: x in xs <==> x in s
  {
    xs := [];
    var rest := s;
    while rest != {}
      invariant rest <= s
      invariant NoDuplicates(xs)
      invariant forall x :: x in xs <==> x in s && x !in rest
      decreases rest
    {
      var x :| x in rest;
      xs := xs + [x];
      rest := rest - {x};
    }
  }

  // ---------------------------------------------------------------------------
  // start_missing_tasks: task specifications

  /** A task has been built (`Created`) or handed to the remote service (`Launched`). */
  datatype TaskState = Created | Launched

  /** The arguments `Submit` is constructed with (the geometry is left out). */
  datatype TaskSpec = TaskSpec(name: string, products: seq<string>, layers: seq<string>,
                               startDate: string, endDate: string)

  datatype Task = Task(spec: TaskSpec, state: TaskState)

  datatype PlanError = AmbiguousStartDate(platform: string)

  /** `f"{product}_{date}_{today}"` with both ISO dates stripped of `'-'`. */
  function TaskName(product: string, start: DayNumber, today: DayNumber): string
  {
    product + "_" + RemoveChar(IsoDate(DateOf(start)), '-') + "_" + RemoveChar(IsoDate(DateOf(today)), '-')
  }

  /** Where the two eight-character dates sit in `product_start_end`. */
  lemma NameLayout(product: string, a: string, b: string)
    requires |a| == 8 && |b| == 8
    ensures |product + "_" + a + "_" + b| == |product| + 18
    ensures (product + "_" + a + "_" + b)[|product| + 1..|product| + 9] == a
    ensures (product + "_" + a + "_" + b)[|product| + 10..] == b
  {
    var name := product + "_" + a + "_" + b;
    assert name == (product + "_") + a + ("_" + b);
  }

  /** The name carries the product code and both dates in `YYYYMMDD` form, and each date can be read back. */
  lemma TaskNameParts(product: string, start: DayNumber, today: DayNumber)
    requires DateOf(start).year <= 9999 && DateOf(today).year <= 9999
    ensures TaskName(product, start, today)
            == product + "_" + CompactDate(DateOf(start)) + "_" + CompactDate(DateOf(today))
    ensures |TaskName(product, start, today)| == |product| + 18
    ensures ParseCompactDate(TaskName(product, start, today)[|product| + 1..|product| + 9]) == DateOf(start)
    ensures ParseCompactDate(TaskName(product, start, today)[|product| + 10..]) == DateOf(today)
  {
    var ds, dt := DateOf(start), DateOf(today);
    IsoWithoutDashes(ds);
    IsoWithoutDashes(dt);
    CompactDateRoundTrip(ds);
    CompactDateRoundTrip(dt);
    NameLayout(product, CompactDate(ds), CompactDate(dt));
  }

  lemma TaskNameDeterminesStart(product: string, s1: DayNumber, s2: DayNumber, today: DayNumber)
    requires DateOf(s1).year <= 9999 && DateOf(s2).year <= 9999 && DateOf(today).year <= 9999
    requires TaskName(product, s1, today) == TaskName(product, s2, today)
    ensures s1 == s2
  {
    TaskNameParts(product, s1, today);
    TaskNameParts(product, s2, today);
    DateOfInjective(s1, s2);
  }

  /** `spec` is the task the planner builds for product `p` of the gap table `missing`. */
  ghost predicate PlannedFor(spec: TaskSpec, missing: seq<GapRow>, catalog: string -> map<string, bool>,
                             today: DayNumber, p: string)
  {
    var sub := RowsFor(missing, p);
    && |sub| > 0
    && StartDates(sub) == {sub[0].date}
    && spec.name == TaskName(p, sub[0].date, today)
    && spec.startDate == IsoDate(DateOf(sub[0].date))
    && spec.endDate == IsoDate(DateOf(today))
    && NoDuplicates(spec.layers)
    && (forall k :: k in spec.layers <==> Selected(catalog(p), k, sub))
    && |spec.products| == |spec.layers|
    && (forall i :: 0 <= i < |spec.products| ==> spec.products[i] == p)
  }

  lemma SingletonSet<T>(s: set<T>, x: T)
    requires |s| == 1 && x in s
    ensures s == {x}
  {
    var rest := s - {x};
    assert |rest| == 0;
    assert rest == {};
    forall y | y in s ensures y == x {
      assert y !in rest;
    }
  }

  /** Every product of the gap table carries a single start date. */
  ghost predicate Unambiguous(missing: seq<GapRow>)
  {
    forall p :: p in PlatformsOf(missing) ==> |StartDates(RowsFor(missing, p))| == 1
  }

  /** The inner `for e in sub.element.values` loop: the union of what each row's element selects. */
  method CollectLayers(layers: map<string, bool>, sub: seq<GapRow>) returns (selected: set<string>)
    ensures forall k :: k in selected <==> Selected(layers, k, sub)
  {
    selected := {};
    for j := 0 to |sub|
      invariant forall k :: k in selected <==> Selected(layers, k, sub[..j])
    {
      assert sub[..j + 1] == sub[..j] + [sub[j]];
      selected := selected + LayersForElement(layers, sub[j].element);
    }
    assert sub[..|sub|] == sub;
  }

  /** The body of the per-product loop: select the layers, check the start date, build the task. */
  method PlanProduct(missing: seq<GapRow>, catalog: string -> map<string, bool>, today: DayNumber, p: string)
    returns (r: Result<TaskSpec, PlanError>)
    requires p in PlatformsOf(missing)
    ensures r.Ok? <==> |StartDates(RowsFor(missing, p))| == 1
    ensures r.Err? ==> r.error == AmbiguousStartDate(p) && |StartDates(RowsFor(missing, p))| > 1
    ensures r.Ok? ==> PlannedFor(r.value, missing, catalog, today, p)
  {
    var sub := RowsFor(missing, p);
    var layers := CollectLayers(catalog(p), sub);
    var i :| 0 <= i < |missing| && missing[i].platform == p;
    assert missing[i] in sub;
    assert sub[0].date in StartDates(sub);
    if |StartDates(sub)| != 1 {
      return Err(AmbiguousStartDate(p));
    }
    var date := sub[0].date;
    SingletonSet(StartDates(sub), date);
    var layerList := ListOfSet(layers);
    r := Ok(TaskSpec(TaskName(p, date, today), Repeat(p, |layerList|), layerList,
                     IsoDate(DateOf(date)), IsoDate(DateOf(today))));
  }

  /** `[task.launch(session.token) for task in tasks]`. */
  method LaunchAll(tasks: seq<Task>) returns (launched: seq<Task>)
    ensures |launched| == |tasks|
    ensures forall i :: 0 <= i < |tasks| ==> launched[i] == tasks[i].(state := Launched)
  {
    launched := tasks;
    for i := 0 to |tasks|
      invariant |launched| == |tasks|
      invariant forall j :: 0 <= j < |tasks| ==>
                  launched[j] == if j < i then tasks[j].(state := Launched) else tasks[j]
    {
      launched := launched[i := launched[i].(state := Launched)];
    }
  }

  /** Appending the task of one more product keeps every task planned for its product. */
  lemma PlannedStep(specs: seq<TaskSpec>, order: seq<string>, spec: TaskSpec, p: string,
                    missing: seq<GapRow>, catalog: string -> map<string, bool>, today: DayNumber)
    requires |specs| == |order|
    requires forall i :: 0 <= i < |order| ==> PlannedFor(specs[i], missing, catalog, today, order[i])
    requires PlannedFor(spec, missing, catalog, today, p)
    ensures forall i :: 0 <= i < |order| + 1 ==>
              PlannedFor((specs + [spec])[i], missing, catalog, today, (order + [p])[i])
  {
    forall i | 0 <= i < |order| + 1
      ensures PlannedFor((specs + [spec])[i], missing, catalog, today, (order + [p])[i])
    {
      if i < |order| {
        assert (specs + [spec])[i] == specs[i] && (order + [p])[i] == order[i];
      }
    }
  }

  /**
   * The `for p in products` loop: one task per distinct product of the gap table, in
   * the arbitrary order of `set(missing["platform"])` (recorded in `order`).  The first
   * product met with more than one start date ends planning with an assertion error.
   */
  method PlanTasks(missing: seq<GapRow>, catalog: string -> map<string, bool>, today: DayNumber)
    returns (r: Result<seq<TaskSpec>, PlanError>, ghost order: seq<string>)
    ensures r.Ok? <==> Unambiguous(missing)
    ensures r.Err? ==> var p := r.error.platform;
              p in PlatformsOf(missing) && |StartDates(RowsFor(missing, p))| > 1
    ensures r.Ok? ==> |r.value| == |order| && NoDuplicates(order)
    ensures r.Ok? ==> forall p :: p in order <==> p in PlatformsOf(missing)
    ensures r.Ok? ==> forall i :: 0 <= i < |order| ==> PlannedFor(r.value[i], missing, catalog, today, order[i])
  {
    var remaining := PlatformsOf(missing);
    var specs: seq<TaskSpec> := [];
    order := [];
    while remaining != {}
      invariant remaining <= PlatformsOf(missing)
      invariant forall p :: p in order <==> p in PlatformsOf(missing) && p !in remaining
      invariant NoDuplicates(order)
      invariant |specs| == |order|
      invariant forall p :: p in order ==> |StartDates(RowsFor(missing, p))| == 1
      invariant forall i :: 0 <= i < |order| ==> PlannedFor(specs[i], missing, catalog, today, order[i])
      decreases remaining
    {
      var p :| p in remaining;
      var planned := PlanProduct(missing, catalog, today, p);
      if planned.Err? {
        assert !Unambiguous(missing);
        return Err(planned.error), order;
      }
      PlannedStep(specs, order, planned.value, p, missing, catalog, today);
      specs, order := specs + [planned.value], order + [p];
      remaining := remaining - {p};
    }
    assert Unambiguous(missing);
    r := Ok(specs);
  }

  /**
   * `start_missing_tasks`: plan the tasks for `find_missing_data(latest)` and, with
   * `startNow`, launch every one of them once planning has finished.
   */
  method StartMissingTasks(latest: seq<GapRow>, catalog: string -> map<string, bool>,
                           today: DayNumber, startNow: bool)
    returns (r: Result<seq<Task>, PlanError>, ghost order: seq<string>)
    ensures r.Ok? <==> Unambiguous(FindMissingData(latest))
    ensures r.Err? ==> var p := r.error.platform;
              p in PlatformsOf(latest) && |StartDates(RowsFor(FindMissingData(latest), p))| > 1
    ensures r.Ok? ==> |r.value| == |order| && NoDuplicates(order)
    ensures r.Ok? ==> forall p :: p in order <==> p in PlatformsOf(latest)
    ensures r.Ok? ==> forall i :: 0 <= i < |order| ==>
              && PlannedFor(r.value[i].spec, FindMissingData(latest), catalog, today, order[i])
              && r.value[i].state == (if startNow then Launched else Created)
  {
    var missing := FindMissingData(latest);
    FindMissingDataKeepsPlatforms(latest);
    var planned;
    planned, order := PlanTasks(missing, catalog, today);
    if planned.Err? {
      return Err(planned.error), order;
    }
    var specs := planned.value;
    var tasks := seq(|specs|, i requires 0 <= i < |specs| => Task(specs[i], Created));
    if startNow {
      tasks := LaunchAll(tasks);
    }
    r := Ok(tasks);
  }

  // ---------------------------------------------------------------------------
  // wait_on_tasks

  /** What one `task.download(...)` call observes: `PendingTaskError`, a completed download, or another error. */
  datatype Poll = Pending | Done | Failed(reason: string)

  /** The state of the round: the tasks still pending and those downloaded so far, or the position of the failing call. */
  datatype RoundResult = RoundOk(pending: seq<Task>, done: seq<Task>)
                       | RoundFailed(at: nat, reason: string, done: seq<Task>)

  /** The sub-list of `ts`, in order, whose download in round `k` signals pending. */
  function PendingOf(poll: (nat, Task) -> Poll, k: nat, ts: seq<Task>): seq<Task>
  {
    if ts == [] then []
    else PendingOf(poll, k, ts[..|ts| - 1]) + (if poll(k, ts[|ts| - 1]) == Pending then [ts[|ts| - 1]] else [])
  }

  /** The sub-list of `ts`, in order, whose download in round `k` completes. */
  function DoneOf(poll: (nat, Task) -> Poll, k: nat, ts: seq<Task>): seq<Task>
  {
    if ts == [] then []
    else DoneOf(poll, k, ts[..|ts| - 1]) + (if poll(k, ts[|ts| - 1]) == Done then [ts[|ts| - 1]] else [])
  }

  lemma {:induction false} PendingOfMembers(poll: (nat, Task) -> Poll, k: nat, ts: seq<Task>)
    ensures forall t :: t in PendingOf(poll, k, ts) <==> t in ts && poll(k, t) == Pending
  {
    if ts != [] {
      PendingOfMembers(poll, k, ts[..|ts| - 1]);
      assert ts == ts[..|ts| - 1] + [ts[|ts| - 1]];
    }
  }

  /**
   * One round of the `for idx, task in enumerate(tasks)` loop: the tasks are tried in
   * order; the first error other than pending ends the round (and the wait).
   */
  function PollRound(poll: (nat, Task) -> Poll, k: nat, ts: seq<Task>): (r: RoundResult)
    ensures r.RoundFailed? ==> r.at < |ts|
  {
    if ts == [] then RoundOk([], [])
    else
      match PollRound(poll, k, ts[..|ts| - 1])
      case RoundFailed(at, e, done) => RoundFailed(at, e, done)
      case RoundOk(pending, done) =>
        var t := ts[|ts| - 1];
        match poll(k, t)
        case Pending => RoundOk(pending + [t], done)
        case Done => RoundOk(pending, done + [t])
        case Failed(e) => RoundFailed(|ts| - 1, e, done)
  }

  /** A round that succeeds splits its tasks, in order, into the pending ones and the downloaded ones, losing none. */
  lemma {:induction false} PollRoundSplit(poll: (nat, Task) -> Poll, k: nat, ts: seq<Task>)
    ensures var r := PollRound(poll, k, ts);
            r.RoundOk? ==> && r.pending == PendingOf(poll, k, ts) && r.done == DoneOf(poll, k, ts)
                           && multiset(r.pending) + multiset(r.done) == multiset(ts)
  {
    if ts != [] {
      var init, t := ts[..|ts| - 1], ts[|ts| - 1];
      assert ts == init + [t];
      PollRoundSplit(poll, k, init);
    }
  }

  /** A round fails exactly when some download in it raises an error other than pending, and then at the first such task. */
  lemma {:induction false} PollRoundFailure(poll: (nat, Task) -> Poll, k: nat, ts: seq<Task>)
    ensures var r := PollRound(poll, k, ts);
            && (r.RoundOk? <==> forall i :: 0 <= i < |ts| ==> !poll(k, ts[i]).Failed?)
            && (r.RoundFailed? ==> && poll(k, ts[r.at]) == Failed(r.reason)
                                   && (forall i :: 0 <= i < r.at ==> !poll(k, ts[i]).Failed?)
                                   && r.done == DoneOf(poll, k, ts[..r.at]))
  {
    if ts != [] {
      var init, t := ts[..|ts| - 1], ts[|ts| - 1];
      assert ts == init + [t];
      PollRoundFailure(poll, k, init);
      PollRoundSplit(poll, k, init);
      var r0 := PollRound(poll, k, init);
      if r0.RoundFailed? {
        assert ts[..r0.at] == init[..r0.at];
      } else {
        assert ts[..|init|] == init;
      }
    }
  }

  /** A failure inside a prefix of the round decides the whole round. */
  lemma {:induction false} PollRoundFailedPrefix(poll: (nat, Task) -> Poll, k: nat, ts: seq<Task>, n: nat)
    requires n <= |ts| && PollRound(poll, k, ts[..n]).RoundFailed?
    ensures PollRound(poll, k, ts) == PollRound(poll, k, ts[..n])
    decreases |ts| - n
  {
    if n < |ts| {
      var m := ts[..n + 1];
      assert m[..|m| - 1] == ts[..n];
      assert PollRound(poll, k, m) == PollRound(poll, k, ts[..n]);
      PollRoundFailedPrefix(poll, k, ts, n + 1);
    } else {
      assert ts[..n] == ts;
    }
  }

  /** The outcome of waiting: every task downloaded after `rounds` rounds, or the error that ended the wait. */
  datatype WaitResult = AllDownloaded(downloaded: seq<Task>, rounds: nat)
                      | Aborted(task: Task, reason: string, downloaded: seq<Task>)

  /** The tasks downloaded in earlier rounds come first. */
  function Prepend(done: seq<Task>, w: WaitResult): WaitResult
  {
    match w
    case AllDownloaded(d, n) => AllDownloaded(done + d, n)
    case Aborted(t, e, d) => Aborted(t, e, done + d)
  }

  lemma PrependTwice(a: seq<Task>, b: seq<Task>, w: WaitResult)
    ensures Prepend(a, Prepend(b, w)) == Prepend(a + b, w)
  {
    assert a + (b + w.downloaded) == (a + b) + w.downloaded;
  }

  /** From round `bound` on, the remote service has finished with every task of `ts`. */
  ghost predicate ResolvedFrom(poll: (nat, Task) -> Poll, bound: nat, ts: seq<Task>)
  {
    forall j: nat, t :: bound <= j && t in ts ==> poll(j, t) != Pending
  }

  /** The reference behaviour of the polling loop from round `k` with outstanding tasks `ts`. */
  ghost function Wait(poll: (nat, Task) -> Poll, k: nat, ts: seq<Task>, bound: nat): WaitResult
    requires k <= bound && ResolvedFrom(poll, bound, ts)
    decreases bound - k
  {
    match PollRound(poll, k, ts)
    case RoundFailed(at, e, done) => Aborted(ts[at], e, done)
    case RoundOk(pending, done) =>
      if pending == [] then AllDownloaded(done, k + 1)
      else
        PollRoundSplit(poll, k, ts);
        PollRoundFailure(poll, k, ts);
        PendingOfMembers(poll, k, ts);
        assert pending[0] in ts && poll(k, pending[0]) == Pending;
        Prepend(done, Wait(poll, k + 1, pending, bound))
  }

  /** A round that leaves tasks pending was not the last one, and the wait goes on with exactly those tasks. */
  lemma WaitContinues(poll: (nat, Task) -> Poll, k: nat, ts: seq<Task>, bound: nat)
    requires k <= bound && ResolvedFrom(poll, bound, ts)
    requires PollRound(poll, k, ts).RoundOk? && PollRound(poll, k, ts).pending != []
    ensures k < bound
    ensures ResolvedFrom(poll, bound, PollRound(poll, k, ts).pending)
    ensures var round := PollRound(poll, k, ts);
            Wait(poll, k, ts, bound) == Prepend(round.done, Wait(poll, k + 1, round.pending, bound))
  {
    PollRoundSplit(poll, k, ts);
    PollRoundFailure(poll, k, ts);
    PendingOfMembers(poll, k, ts);
    assert PollRound(poll, k, ts).pending[0] in ts;
  }

  /** Without failures a round keeps exactly its pending tasks, and no task is lost or repeated. */
  lemma RoundWithoutFailures(poll: (nat, Task) -> Poll, k: nat, ts: seq<Task>)
    requires forall j: nat, t :: t in ts ==> !poll(j, t).Failed?
    ensures PollRound(poll, k, ts).RoundOk?
    ensures multiset(PollRound(poll, k, ts).pending) + multiset(PollRound(poll, k, ts).done) == multiset(ts)
    ensures forall j: nat, t :: t in PollRound(poll, k, ts).pending ==> !poll(j, t).Failed?
  {
    PollRoundSplit(poll, k, ts);
    PollRoundFailure(poll, k, ts);
    PendingOfMembers(poll, k, ts);
    forall i | 0 <= i < |ts| ensures !poll(k, ts[i]).Failed? {
      assert ts[i] in ts;
    }
  }

  /** Without failures, waiting downloads every task exactly once, within `bound + 1` rounds. */
  lemma {:induction false} WaitDownloadsEachTaskOnce(poll: (nat, Task) -> Poll, k: nat, ts: seq<Task>, bound: nat)
    requires k <= bound && ResolvedFrom(poll, bound, ts)
    requires forall j: nat, t :: t in ts ==> !poll(j, t).Failed?
    ensures Wait(poll, k, ts, bound).AllDownloaded?
    ensures multiset(Wait(poll, k, ts, bound).downloaded) == multiset(ts)
    ensures Wait(poll, k, ts, bound).rounds <= bound + 1
    decreases bound - k
  {
    RoundWithoutFailures(poll, k, ts);
    var round := PollRound(poll, k, ts);
    var w := Wait(poll, k, ts, bound);
    if round.pending == [] {
      assert w == AllDownloaded(round.done, k + 1);
    } else {
      WaitContinues(poll, k, ts, bound);
      WaitDownloadsEachTaskOnce(poll, k + 1, round.pending, bound);
      var rest := Wait(poll, k + 1, round.pending, bound);
      assert w == Prepend(round.done, rest);
      assert rest.AllDownloaded? && rest.rounds <= bound + 1;
      assert w.downloaded == round.done + rest.downloaded && w.rounds == rest.rounds;
      assert multiset(round.done + rest.downloaded) == multiset(round.done) + multiset(rest.downloaded);
    }
  }

  /** An aborted wait names a task of the input whose download raised that error in some round. */
  lemma {:induction false} WaitAbortsOnlyOnFailure(poll: (nat, Task) -> Poll, k: nat, ts: seq<Task>, bound: nat)
    requires k <= bound && ResolvedFrom(poll, bound, ts)
    requires Wait(poll, k, ts, bound).Aborted?
    ensures var w := Wait(poll, k, ts, bound);
            w.task in ts && exists j: nat :: k <= j <= bound && poll(j, w.task) == Failed(w.reason)
    decreases bound - k
  {
    PollRoundSplit(poll, k, ts);
    PollRoundFailure(poll, k, ts);
    var round := PollRound(poll, k, ts);
    if round.RoundOk? {
      PendingOfMembers(poll, k, ts);
      assert round.pending[0] in ts;
      WaitAbortsOnlyOnFailure(poll, k + 1, round.pending, bound);
    } else {
      assert poll(k, ts[round.at]) == Failed(round.reason);
    }
  }

  /** The `for idx, task in enumerate(tasks)` loop of one round; an error other than pending propagates at once. */
  method PollOnce(poll: (nat, Task) -> Poll, round: nat, outstanding: seq<Task>) returns (res: RoundResult)
    ensures res == PollRound(poll, round, outstanding)
  {
    var pending: seq<Task> := [];
    var done: seq<Task> := [];
    var i := 0;
    while i < |outstanding|
      invariant 0 <= i <= |outstanding|
      invariant PollRound(poll, round, outstanding[..i]) == RoundOk(pending, done)
    {
      var t := outstanding[i];
      assert outstanding[..i + 1][..i] == outstanding[..i];
      match poll(round, t) {
        case Pending =>
          pending := pending + [t];
        case Done =>
          done := done + [t];
        case Failed(e) =>
          PollRoundFailedPrefix(poll, round, outstanding, i + 1);
          return RoundFailed(i, e, done);
      }
      i := i + 1;
    }
    assert outstanding[..i] == outstanding;
    res := RoundOk(pending, done);
  }

  /**
   * `wait_on_tasks`: poll every outstanding task once per round; keep, in order, the
   * ones whose download signalled pending; stop when none is left.  `poll(k, t)` is
   * what `t.download(...)` observes in round `k` (round 0 follows the single initial
   * sleep).  The ghost `bound` is a round from which no task is pending any more.
   */
  method WaitOnTasks(tasks: seq<Task>, poll: (nat, Task) -> Poll, ghost bound: nat) returns (r: WaitResult)
    requires ResolvedFrom(poll, bound, tasks)
    ensures r == Wait(poll, 0, tasks, bound)
  {
    var outstanding := tasks;
    var round: nat := 0;
    var downloaded: seq<Task> := [];
    while true
      invariant round <= bound && ResolvedFrom(poll, bound, outstanding)
      invariant Wait(poll, 0, tasks, bound) == Prepend(downloaded, Wait(poll, round, outstanding, bound))
      decreases bound - round
    {
      var res := PollOnce(poll, round, outstanding);
      match res
      case RoundFailed(at, e, done) =>
        PrependTwice(downloaded, done, Aborted(outstanding[at], e, []));
        assert done + [] == done;
        return Aborted(outstanding[at], e, downloaded + done);
      case RoundOk(pending, done) =>
        if pending == [] {
          return AllDownloaded(downloaded + done, round + 1);
        }
        WaitContinues(poll, round, outstanding, bound);
        PrependTwice(downloaded, done, Wait(poll, round + 1, pending, bound));
        downloaded := downloaded + done;
        outstanding := pending;
        round := round + 1;
    }
  }
}
