/** Which epoch is processed next. Progress is kept in a table with one row per epoch and two flags. Flags are set by
    mutations that may land at any later time, and the process may stop anywhere; the order of epochs survives, but for
    one case: a start on an empty table while the summary table already reaches the configured epoch. */
module EpochProcessing {
  import opened Options

  datatype Row = Row(stored: bool, calculated: bool)

  const NEW_ROW := Row(false, false)

  predicate Complete(r: Row) {
    r.stored && r.calculated
  }

  datatype Mutation = SetStored(epoch: int) | SetCalculated(epoch: int)

  /** The rows as a query sees them, the mutations issued but not yet applied, and the largest epoch in the summary
      table (0 if it is empty), which is consulted only while there is no row. */
  datatype Table = Table(rows: map<int, Row>, pending: set<Mutation>, summaryMax: int)

  function Mutated(r: Row, m: Mutation): Row {
    match m
    case SetStored(_) => r.(stored := true)
    case SetCalculated(_) => r.(calculated := true)
  }

  /** A mutation touches the row of its epoch, if there is one. */
  function Land(t: Table, m: Mutation): Table {
    t.(rows := if m.epoch in t.rows then t.rows[m.epoch := Mutated(t.rows[m.epoch], m)] else t.rows, pending := t.pending - {m})
  }

  function Issue(t: Table, m: Mutation): Table {
    t.(pending := t.pending + {m})
  }

  function Ensured(t: Table, epoch: int): Table {
    if epoch in t.rows then t else t.(rows := t.rows[epoch := NEW_ROW])
  }

  /** The summary of an epoch is written before its row is touched. */
  function WithSummary(t: Table, epoch: int): Table {
    t.(summaryMax := if epoch > t.summaryMax then epoch else t.summaryMax)
  }

  // ---- choosing --------------------------------------------------------------------------------

  datatype Choice = Choice(epoch: int, stored: bool, calculated: bool)

  /** The last epoch that is both stored and calculated, 0 if there is none. */
  ghost predicate IsLastProcessed(rows: map<int, Row>, p: int) {
    if p in rows && Complete(rows[p]) then forall e :: e in rows && Complete(rows[e]) ==> e <= p
    else p == 0 && forall e :: e in rows ==> !Complete(rows[e])
  }

  ghost predicate IsLast(rows: map<int, Row>, last: Option<int>) {
    if last.None? then rows == map[] else last.value in rows && forall e :: e in rows ==> e <= last.value
  }

  function RowOf(rows: map<int, Row>, epoch: Option<int>): Row {
    if epoch.Some? && epoch.value in rows then rows[epoch.value] else NEW_ROW
  }

  /** An epoch 0 in the answer means that there was no row. */
  function Choose(start: int, lastProcessed: int, lastEpoch: int, last: Row, summaryMax: int): Choice {
    var processed := if lastEpoch == 0 then summaryMax else lastProcessed;
    var next := if last.stored != last.calculated then Choice(lastEpoch, last.stored, last.calculated) else Choice(start, false, false);
    if processed >= next.epoch then next.(epoch := processed + 1) else next
  }

  /** What a choice must be: the flags are those of the last row if exactly one of them is set, and neither otherwise; the epoch is
      that row's, or the configured one, but always beyond what is known to be processed. */
  predicate ChosenBy(c: Choice, start: int, lastProcessed: int, lastEpoch: int, last: Row, summaryMax: int) {
    && (c.stored <==> last.stored && !last.calculated)
    && (c.calculated <==> last.calculated && !last.stored)
    && c.epoch >= (if c.stored || c.calculated then lastEpoch else start)
    && c.epoch > (if lastEpoch == 0 then summaryMax else lastProcessed)
    && (c.epoch == (if c.stored || c.calculated then lastEpoch else start) || c.epoch == (if lastEpoch == 0 then summaryMax else lastProcessed) + 1)
  }

  /** There is exactly one such choice, and it is the one computed. */
  lemma ChooseMeans(c: Choice, start: int, lastProcessed: int, lastEpoch: int, last: Row, summaryMax: int)
    ensures c == Choose(start, lastProcessed, lastEpoch, last, summaryMax) <==> ChosenBy(c, start, lastProcessed, lastEpoch, last, summaryMax)
  {
  }

  // ---- one round as a state machine ------------------------------------------------------------

  /** Where the program stands. `before` is the row read before a mutation was issued. */
  datatype Phase =
    | Idle
    | SawLastProcessed(p: int)
    | Chosen(choice: Choice)
    | Written(choice: Choice)
    | Storing(epoch: int, calculated: bool, before: Row)
    | AwaitStored(epoch: int, calculated: bool, before: Row)
    | ToCalculate(epoch: int)
    | Calculating(epoch: int, before: Row)
    | AwaitCalculated(epoch: int, before: Row)

  datatype State = State(table: Table, phase: Phase)

  datatype Step =
    | LateMutation(m: Mutation)
    | Stop
    | ReadLastProcessed(p: int)
    | ReadLast(last: Option<int>)
    | WriteSummary
    | Store
    | IssueStored
    | SeeStored
    | SkipStore
    | Calculate
    | IssueCalculated
    | SeeCalculated

  ghost predicate Enabled(s: State, step: Step) {
    match step
    case LateMutation(m) => m in s.table.pending
    case Stop => true
    case ReadLastProcessed(p) => s.phase.Idle? && IsLastProcessed(s.table.rows, p)
    case ReadLast(last) => s.phase.SawLastProcessed? && IsLast(s.table.rows, last)
    case WriteSummary => s.phase.Chosen? && !s.phase.choice.stored
    case Store => s.phase.Written?
    case IssueStored => s.phase.Storing?
    case SeeStored => s.phase.AwaitStored? && s.phase.epoch in s.table.rows && s.table.rows[s.phase.epoch] != s.phase.before
    case SkipStore => s.phase.Chosen? && s.phase.choice.stored
    case Calculate => s.phase.ToCalculate?
    case IssueCalculated => s.phase.Calculating?
    case SeeCalculated => s.phase.AwaitCalculated? && s.phase.epoch in s.table.rows && s.table.rows[s.phase.epoch] != s.phase.before
  }

  function AfterStore(epoch: int, calculated: bool): Phase {
    if calculated then Idle else ToCalculate(epoch)
  }

  ghost function After(s: State, step: Step, start: int): State
    requires Enabled(s, step)
  {
    var t := s.table;
    match step
    case LateMutation(m) => s.(table := Land(t, m))
    case Stop => s.(phase := Idle)
    case ReadLastProcessed(p) => s.(phase := SawLastProcessed(p))
    case ReadLast(last) =>
      s.(phase := Chosen(Choose(start, s.phase.p, last.GetOr(0), RowOf(t.rows, last), t.summaryMax)))
    case WriteSummary => State(WithSummary(t, s.phase.choice.epoch), Written(s.phase.choice))
    case Store =>
      var c := s.phase.choice;
      State(Ensured(t, c.epoch), Storing(c.epoch, c.calculated, RowOf(t.rows, Some(c.epoch))))
    case IssueStored => State(Issue(t, SetStored(s.phase.epoch)), AwaitStored(s.phase.epoch, s.phase.calculated, s.phase.before))
    case SeeStored => s.(phase := AfterStore(s.phase.epoch, s.phase.calculated))
    case SkipStore => s.(phase := AfterStore(s.phase.choice.epoch, s.phase.choice.calculated))
    case Calculate => State(Ensured(t, s.phase.epoch), Calculating(s.phase.epoch, RowOf(t.rows, Some(s.phase.epoch))))
    case IssueCalculated => State(Issue(t, SetCalculated(s.phase.epoch)), AwaitCalculated(s.phase.epoch, s.phase.before))
    case SeeCalculated => s.(phase := Idle)
  }

  // ---- invariants ------------------------------------------------------------------------------

  /** The rows are the epochs `start..top`, none for `top == start - 1`, and all but the last are complete; no epoch is
      calculated, or about to be marked so, without being stored. */
  ghost predicate TableInv(t: Table, start: int, top: int) {
    && 0 < start <= top + 1
    && (forall e :: e in t.rows <==> start <= e <= top)
    && (forall e :: e in t.rows && e < top ==> Complete(t.rows[e]))
    && (forall e :: e in t.rows ==> (t.rows[e].calculated ==> t.rows[e].stored))
    && (forall m :: m in t.pending ==> m.epoch in t.rows && (m.SetCalculated? ==> t.rows[m.epoch].stored))
  }

  predicate NoLess(r: Row, before: Row) {
    (before.stored ==> r.stored) && (before.calculated ==> r.calculated)
  }

  /** The last epoch that is fully processed; `start - 1` if none is. */
  function UpTo(t: Table, top: int): int {
    if top in t.rows && !Complete(t.rows[top]) then top - 1 else top
  }

  /** The epoch to work on is the last one, or the one after it once the last one is complete. */
  ghost predicate CanWorkOn(t: Table, top: int, epoch: int) {
    (epoch == top && top in t.rows) || (epoch == top + 1 && UpTo(t, top) == top)
  }

  ghost predicate ReadBefore(t: Table, start: int, top: int, p: int) {
    || (p == top && top in t.rows && Complete(t.rows[top]))
    || (p == top - 1 && top > start)
    || (p == 0 && top <= start)
  }

  ghost predicate PhaseInv(t: Table, phase: Phase, start: int, top: int) {
    match phase
    case Idle => true
    case SawLastProcessed(p) => ReadBefore(t, start, top, p)
    case Chosen(c) => CanWorkOn(t, top, c.epoch) && !c.calculated && (c.stored ==> c.epoch == top && top in t.rows && t.rows[top].stored)
    case Written(c) => CanWorkOn(t, top, c.epoch) && !c.calculated
    case Storing(e, _, r) => e == top && top in t.rows && NoLess(t.rows[top], r)
    case AwaitStored(e, _, r) => e == top && top in t.rows && NoLess(t.rows[top], r)
    case ToCalculate(e) => e == top && top in t.rows && t.rows[top].stored
    case Calculating(e, r) => e == top && top in t.rows && t.rows[top].stored
    case AwaitCalculated(e, r) => e == top && top in t.rows && t.rows[top].stored
  }

  /** As long as there is no row, the summary table must not reach the configured epoch, except just before the first
      row is inserted. */
  ghost predicate StartIsNext(t: Table, phase: Phase, start: int) {
    t.rows == map[] ==> t.summaryMax < start || phase.Written?
  }

  ghost predicate Inv(s: State, start: int, top: int) {
    TableInv(s.table, start, top) && PhaseInv(s.table, s.phase, start, top) && StartIsNext(s.table, s.phase, start)
  }

  /** The one step that can break the order: stopping after the first summary was written and before the first row. */
  predicate LosesFirst(s: State, step: Step) {
    step.Stop? && s.phase.Written? && s.table.rows == map[]
  }

  /** The fully processed epochs are exactly those from `start` up to `upTo`. */
  ghost predicate ProcessedExactly(t: Table, start: int, upTo: int) {
    forall e :: (e in t.rows && Complete(t.rows[e])) <==> start <= e <= upTo
  }

  ghost predicate CalculatedAreStored(t: Table) {
    forall e :: e in t.rows ==> (t.rows[e].calculated ==> t.rows[e].stored)
  }

  lemma ChooseFollows(t: Table, start: int, top: int, p: int, last: Option<int>)
    requires TableInv(t, start, top) && ReadBefore(t, start, top, p) && IsLast(t.rows, last)
    requires t.rows == map[] ==> t.summaryMax < start
    ensures PhaseInv(t, Chosen(Choose(start, p, last.GetOr(0), RowOf(t.rows, last), t.summaryMax)), start, top)
  {
    LastIsTop(t, start, top, last);
  }

  lemma LastIsTop(t: Table, start: int, top: int, last: Option<int>)
    requires TableInv(t, start, top) && IsLast(t.rows, last)
    ensures last == if top >= start then Some(top) else None
    ensures t.rows == map[] <==> top < start
  {
    assert top in t.rows <==> start <= top;
    NoKeysNoRows(t.rows);
    assert start <= top ==> top in t.rows.Keys;
  }

  lemma NoKeysNoRows(rows: map<int, Row>)
    ensures rows.Keys == {} <==> rows == map[]
  {
  }

  lemma LastProcessedIsNear(t: Table, start: int, top: int, p: int)
    requires TableInv(t, start, top) && IsLastProcessed(t.rows, p)
    ensures ReadBefore(t, start, top, p)
  {
    assert top - 1 >= start ==> top - 1 in t.rows && Complete(t.rows[top - 1]);
  }

  lemma LandKeeps(s: State, m: Mutation, start: int, top: int)
    requires Inv(s, start, top) && m in s.table.pending
    ensures Inv(s.(table := Land(s.table, m)), start, top)
    ensures UpTo(s.table, top) <= UpTo(Land(s.table, m), top)
  {
    var t := s.table;
    assert m.epoch in t.rows;
    hide StartIsNext;
    StillStart(t, m, s.phase, start);
  }

  lemma StillStart(t: Table, m: Mutation, phase: Phase, start: int)
    requires m.epoch in t.rows
    ensures StartIsNext(Land(t, m), phase, start)
  {
    assert m.epoch in Land(t, m).rows;
  }

  /** One step keeps the invariant, and moves the last processed epoch by at most one. */
  lemma StepKeeps(s: State, step: Step, start: int, top: int) returns (top': int)
    requires Inv(s, start, top) && Enabled(s, step) && !LosesFirst(s, step)
    ensures Inv(After(s, step, start), start, top')
    ensures UpTo(s.table, top) <= UpTo(After(s, step, start).table, top') <= UpTo(s.table, top) + 1
  {
    top' := top;
    match step
    case LateMutation(m) => LandKeeps(s, m, start, top);
    case ReadLastProcessed(p) => LastProcessedIsNear(s.table, start, top, p);
    case ReadLast(last) => ChooseFollows(s.table, start, top, s.phase.p, last);
    case Store => top' := s.phase.choice.epoch;
    case Calculate => assert s.phase.epoch in s.table.rows;
    case _ =>
  }

  lemma ProcessedAre(t: Table, start: int, top: int)
    requires TableInv(t, start, top)
    ensures ProcessedExactly(t, start, UpTo(t, top))
  {
    assert top in t.rows <==> start <= top;
  }

  // ---- every run -------------------------------------------------------------------------------

  ghost predicate CanRun(s: State, steps: seq<Step>, start: int)
    decreases |steps|, 0
  {
    steps == [] || (CanRun(s, steps[..|steps| - 1], start) && Enabled(AfterAll(s, steps[..|steps| - 1], start), steps[|steps| - 1]))
  }

  ghost function AfterAll(s: State, steps: seq<Step>, start: int): State
    requires CanRun(s, steps, start)
    decreases |steps|, 1
  {
    if steps == [] then s else After(AfterAll(s, steps[..|steps| - 1], start), steps[|steps| - 1], start)
  }

  /** No step of the run loses the first summary. */
  ghost predicate KeepsFirst(s: State, steps: seq<Step>, start: int)
    requires CanRun(s, steps, start)
    decreases |steps|
  {
    steps == [] || (KeepsFirst(s, steps[..|steps| - 1], start)
                    && !LosesFirst(AfterAll(s, steps[..|steps| - 1], start), steps[|steps| - 1]))
  }

  /** Rows are never removed, so a run from a table with rows cannot lose the first summary. */
  lemma {:induction false} StartedKeepsFirst(s: State, steps: seq<Step>, start: int)
    requires CanRun(s, steps, start) && s.table.rows != map[]
    ensures KeepsFirst(s, steps, start) && AfterAll(s, steps, start).table.rows.Keys >= s.table.rows.Keys
  {
    if steps != [] {
      StartedKeepsFirst(s, steps[..|steps| - 1], start);
      NoKeysNoRows(s.table.rows);
      NoKeysNoRows(AfterAll(s, steps[..|steps| - 1], start).table.rows);
    }
  }

  lemma {:induction false} RunKeeps(s: State, steps: seq<Step>, start: int, top: int) returns (top': int)
    requires Inv(s, start, top) && CanRun(s, steps, start) && KeepsFirst(s, steps, start)
    ensures Inv(AfterAll(s, steps, start), start, top')
    ensures UpTo(s.table, top) <= UpTo(AfterAll(s, steps, start).table, top')
    decreases |steps|
  {
    hide Inv, After, Enabled, UpTo, LosesFirst;
    if steps == [] {
      top' := top;
    } else {
      var mid := RunKeeps(s, steps[..|steps| - 1], start, top);
      top' := StepKeeps(AfterAll(s, steps[..|steps| - 1], start), steps[|steps| - 1], start, mid);
    }
  }

  /** Over every run, with mutations landing as late as they like and the program stopping anywhere: the processed
      epochs are one interval from `start`, its end never goes back, and a calculated epoch is a stored one. Only a run
      from an empty table must not lose its first summary. */
  lemma EpochOrder(s: State, steps: seq<Step>, start: int, top: int) returns (upTo: int)
    requires Inv(s, start, top) && CanRun(s, steps, start)
    requires s.table.rows != map[] || KeepsFirst(s, steps, start)
    ensures var t := AfterAll(s, steps, start).table;
      ProcessedExactly(t, start, upTo) && UpTo(s.table, top) <= upTo && CalculatedAreStored(t)
  {
    if s.table.rows != map[] {
      StartedKeepsFirst(s, steps, start);
    }
    hide AfterAll, KeepsFirst;
    var top' := RunKeeps(s, steps, start, top);
    upTo := UpTo(AfterAll(s, steps, start).table, top');
    ProcessedAre(AfterAll(s, steps, start).table, start, top');
    hide UpTo, ProcessedExactly;
  }

  /** From one state of a run to the next the end of the interval stays or grows by exactly one. */
  lemma EpochByEpoch(s: State, steps: seq<Step>, step: Step, start: int, top: int) returns (upTo: int, upTo': int)
    requires Inv(s, start, top) && CanRun(s, steps + [step], start)
    requires s.table.rows != map[] || KeepsFirst(s, steps + [step], start)
    ensures CanRun(s, steps, start)
    ensures ProcessedExactly(AfterAll(s, steps, start).table, start, upTo)
    ensures ProcessedExactly(AfterAll(s, steps + [step], start).table, start, upTo')
    ensures upTo' == upTo || upTo' == upTo + 1
  {
    assert (steps + [step])[..|steps|] == steps;
    if s.table.rows != map[] {
      StartedKeepsFirst(s, steps + [step], start);
    }
    var mid := RunKeeps(s, steps, start, top);
    var s1 := AfterAll(s, steps, start);
    hide After, Enabled, LosesFirst;
    var top' := StepKeeps(s1, step, start, mid);
    upTo, upTo' := UpTo(s1.table, mid), UpTo(After(s1, step, start).table, top');
    ProcessedAre(s1.table, start, mid);
    ProcessedAre(After(s1, step, start).table, start, top');
    hide UpTo, ProcessedExactly, AfterAll, KeepsFirst;
  }

  // ---- the first start -------------------------------------------------------------------------

  /** No row and nothing pending, whatever the summary table holds. */
  function Empty(summaryMax: int): State {
    State(Table(map[], {}, summaryMax), Idle)
  }

  /** While there is no row: whether the configured epoch is still the one to come. */
  predicate OnCourse(s: State, start: int) {
    match s.phase
    case Chosen(c) => c.epoch == start && s.table.summaryMax < start
    case Written(c) => c.epoch == start
    case _ => s.table.summaryMax < start
  }

  /** A table without rows: nothing is pending, and a choice is of the configured epoch or of one beyond it. */
  predicate NoRowsYet(s: State, start: int) {
    && s.table.rows == map[] && s.table.pending == {}
    && match s.phase
       case Idle => true
       case SawLastProcessed(p) => true
       case Chosen(c) => (c == Choice(start, false, false) && s.table.summaryMax < start) || OffCourse(s.table, c, start)
       case Written(c) => s.table.summaryMax >= c.epoch && (c == Choice(start, false, false) || OffCourse(s.table, c, start))
       case _ => false
  }

  predicate OffCourse(t: Table, c: Choice, start: int) {
    !c.stored && !c.calculated && c.epoch > start && t.summaryMax >= start
  }

  /** As long as no row is inserted, the configured epoch is to come exactly if it was and no first summary is lost. */
  lemma EmptyStep(s: State, step: Step, start: int)
    requires NoRowsYet(s, start) && Enabled(s, step) && start > 0
    ensures var s' := After(s, step, start);
      if step.Store? then s'.table.rows == map[s.phase.choice.epoch := NEW_ROW] && (s.phase.choice.epoch == start <==> OnCourse(s, start))
      else NoRowsYet(s', start) && (OnCourse(s', start) <==> OnCourse(s, start) && !LosesFirst(s, step))
  {
  }

  lemma {:induction false} EmptyRun(summaryMax: int, steps: seq<Step>, start: int)
    requires CanRun(Empty(summaryMax), steps, start) && start > 0
    requires AfterAll(Empty(summaryMax), steps, start).table.rows == map[]
    ensures var s := AfterAll(Empty(summaryMax), steps, start);
      NoRowsYet(s, start) && (OnCourse(s, start) <==> summaryMax < start && KeepsFirst(Empty(summaryMax), steps, start))
  {
    if steps != [] {
      var init, last := steps[..|steps| - 1], steps[|steps| - 1];
      var mid := AfterAll(Empty(summaryMax), init, start);
      if mid.table.rows != map[] {
        RowsStay(mid, last, start);
      }
      EmptyRun(summaryMax, init, start);
      EmptyStep(mid, last, start);
      hide After, Enabled, NoRowsYet, OnCourse, LosesFirst;
    }
  }

  lemma RowsStay(s: State, step: Step, start: int)
    requires Enabled(s, step) && s.table.rows != map[]
    ensures After(s, step, start).table.rows != map[]
  {
    NoKeysNoRows(s.table.rows);
    NoKeysNoRows(After(s, step, start).table.rows);
  }

  /** The first row of a run from an empty table is that of the configured epoch, and the order of epochs begins with it,
      exactly if the summary table did not reach that epoch and no summary was written and lost before. Otherwise the
      table is out of order from its first row on. */
  lemma FirstRow(summaryMax: int, steps: seq<Step>, start: int)
    requires start > 0 && CanRun(Empty(summaryMax), steps + [Store], start)
    requires CanRun(Empty(summaryMax), steps, start) && AfterAll(Empty(summaryMax), steps, start).table.rows == map[]
    ensures var s := AfterAll(Empty(summaryMax), steps + [Store], start);
            var inOrder := summaryMax < start && KeepsFirst(Empty(summaryMax), steps, start);
      && (inOrder ==> Inv(s, start, start))
      && (!inOrder ==> start !in s.table.rows && forall top :: !TableInv(s.table, start, top))
  {
    assert (steps + [Store])[..|steps|] == steps;
    var before := AfterAll(Empty(summaryMax), steps, start);
    EmptyRun(summaryMax, steps, start);
    EmptyStep(before, Store, start);
    var s := After(before, Store, start);
    var e := before.phase.choice.epoch;
    assert e in s.table.rows;
    hide AfterAll, KeepsFirst, CanRun;
    if e != start {
      forall top
        ensures !TableInv(s.table, start, top)
      {
        assert TableInv(s.table, start, top) ==> start in s.table.rows;
      }
    }
  }

  lemma Extend(s: State, steps: seq<Step>, step: Step, start: int)
    requires CanRun(s, steps, start) && Enabled(AfterAll(s, steps, start), step)
    ensures CanRun(s, steps + [step], start) && AfterAll(s, steps + [step], start) == After(AfterAll(s, steps, start), step, start)
  {
    assert (steps + [step])[..|steps|] == steps;
    hide After, Enabled;
  }

  /** The three steps from an idle program to a first summary, while there is no row. */
  lemma FirstSummary(s: State, steps: seq<Step>, start: int) returns (steps': seq<Step>)
    requires start > 0 && CanRun(s, steps, start)
    requires AfterAll(s, steps, start).phase.Idle? && AfterAll(s, steps, start).table.rows == map[]
    ensures steps' == steps + [ReadLastProcessed(0), ReadLast(None), WriteSummary] && CanRun(s, steps', start)
    ensures var t := AfterAll(s, steps, start).table;
            var c := Choose(start, 0, 0, NEW_ROW, t.summaryMax);
      AfterAll(s, steps', start) == State(WithSummary(t, c.epoch), Written(c))
  {
    hide CanRun, AfterAll;
    Extend(s, steps, ReadLastProcessed(0), start);
    Extend(s, steps + [ReadLastProcessed(0)], ReadLast(None), start);
    Extend(s, steps + [ReadLastProcessed(0)] + [ReadLast(None)], WriteSummary, start);
    steps' := steps + [ReadLastProcessed(0)] + [ReadLast(None)] + [WriteSummary];
  }

  /** A program stopped between its first summary and its first row skips the configured epoch when it runs again. */
  lemma StopSkipsStart() returns (steps: seq<Step>)
    ensures steps == [ReadLastProcessed(0), ReadLast(None), WriteSummary, Stop, ReadLastProcessed(0), ReadLast(None), WriteSummary, Store]
    ensures CanRun(Empty(0), steps, 50) && AfterAll(Empty(0), steps, 50).table.rows == map[51 := NEW_ROW]
  {
    steps := FirstSummary(Empty(0), [], 50);
    Extend(Empty(0), steps, Stop, 50);
    steps := FirstSummary(Empty(0), steps + [Stop], 50);
    Extend(Empty(0), steps, Store, 50);
    steps := steps + [Store];
  }

  /** The skipped epoch may still turn up later, behind a row of a later epoch: a program stopped right after inserting
      that row finds it without a flag and returns to the configured epoch. */
  lemma SkippedStartMayReturn() returns (steps: seq<Step>)
    ensures CanRun(Empty(100), steps, 50) && AfterAll(Empty(100), steps, 50).table.rows == map[101 := NEW_ROW, 50 := NEW_ROW]
  {
    steps := FirstSummary(Empty(100), [], 50);
    hide CanRun, AfterAll;
    Extend(Empty(100), steps, Store, 50);
    Extend(Empty(100), steps + [Store], Stop, 50);
    Extend(Empty(100), steps + [Store] + [Stop], ReadLastProcessed(0), 50);
    steps := steps + [Store] + [Stop] + [ReadLastProcessed(0)];
    Extend(Empty(100), steps, ReadLast(Some(101)), 50);
    Extend(Empty(100), steps + [ReadLast(Some(101))], WriteSummary, 50);
    Extend(Empty(100), steps + [ReadLast(Some(101))] + [WriteSummary], Store, 50);
    steps := steps + [ReadLast(Some(101))] + [WriteSummary] + [Store];
  }

  // ---- resuming a half-done epoch ----------------------------------------------------------------

  /** What the program decides on when it reads the last row. */
  lemma ReadLastChooses(s: State, last: Option<int>, start: int)
    requires Enabled(s, ReadLast(last))
    ensures var s', row := After(s, ReadLast(last), start), RowOf(s.table.rows, last);
      s'.phase.Chosen? && ChosenBy(s'.phase.choice, start, s.phase.p, last.GetOr(0), row, s.table.summaryMax)
  {
    ChooseMeans(After(s, ReadLast(last), start).phase.choice, start, s.phase.p, last.GetOr(0), RowOf(s.table.rows, last), s.table.summaryMax);
  }

  /** A table in order, with nothing on its way, whose last epoch is stored but not calculated. */
  ghost predicate HalfDone(t: Table, start: int, top: int) {
    TableInv(t, start, top) && t.pending == {} && top in t.rows && t.rows[top] == Row(true, false)
  }

  /** The same table with the last epoch complete. */
  function Completed(t: Table, top: int): Table {
    t.(rows := t.rows[top := Row(true, true)])
  }

  function LastProcessed(start: int, top: int): int {
    if top > start then top - 1 else 0
  }

  /** The only way on from a half-done epoch: straight to its calculation, with one mutation. */
  function ResumeSteps(start: int, top: int): seq<Step> {
    [ReadLastProcessed(LastProcessed(start, top)), ReadLast(Some(top)), SkipStore, Calculate, IssueCalculated,
     LateMutation(SetCalculated(top)), SeeCalculated]
  }

  function ResumeState(t: Table, start: int, top: int, k: nat): State
    requires k <= 7
  {
    var half := Row(true, false);
    match k
    case 0 => State(t, Idle)
    case 1 => State(t, SawLastProcessed(LastProcessed(start, top)))
    case 2 => State(t, Chosen(Choice(top, true, false)))
    case 3 => State(t, ToCalculate(top))
    case 4 => State(t, Calculating(top, half))
    case 5 => State(Issue(t, SetCalculated(top)), AwaitCalculated(top, half))
    case 6 => State(Completed(t, top), AwaitCalculated(top, half))
    case 7 => State(Completed(t, top), Idle)
  }

  lemma ResumeStep(t: Table, start: int, top: int, k: nat, step: Step)
    requires HalfDone(t, start, top) && k < 7 && Enabled(ResumeState(t, start, top, k), step) && !step.Stop?
    ensures step == ResumeSteps(start, top)[k]
    ensures After(ResumeState(t, start, top, k), step, start) == ResumeState(t, start, top, k + 1)
  {
    match k
    case 0 =>
      assert top - 1 >= start ==> top - 1 in t.rows && Complete(t.rows[top - 1]);
    case 1 =>
      LastIsTop(t, start, top, step.last);
    case 5 =>
      assert t.pending + {SetCalculated(top)} - {SetCalculated(top)} == {};
    case _ =>
  }

  /** A program that stopped between storing and calculating its last epoch, and does not stop again, takes exactly these
      steps: it neither writes the summary again nor waits for a flag that is already set, and ends with the epoch
      complete and nothing else changed. */
  lemma {:induction false} HalfDoneIsCompleted(t: Table, steps: seq<Step>, start: int, top: int)
    requires HalfDone(t, start, top) && CanRun(State(t, Idle), steps, start)
    requires |steps| <= 7 && Stop !in steps
    ensures steps == ResumeSteps(start, top)[..|steps|]
    ensures AfterAll(State(t, Idle), steps, start) == ResumeState(t, start, top, |steps|)
  {
    if steps != [] {
      var init, last := steps[..|steps| - 1], steps[|steps| - 1];
      assert steps == init + [last];
      HalfDoneIsCompleted(t, init, start, top);
      hide HalfDone, After, Enabled, ResumeState, ResumeSteps;
      ResumeStep(t, start, top, |init|, last);
      SevenSteps(start, top);
    }
  }

  lemma SevenSteps(start: int, top: int)
    ensures |ResumeSteps(start, top)| == 7
  {
  }

  /** From an empty table, every run that finds the summary table short of the configured epoch and does not lose its
      first summary processes the epochs in order from there. */
  lemma OrderFromEmpty(summaryMax: int, steps: seq<Step>, start: int) returns (upTo: int)
    requires 0 < start && summaryMax < start && CanRun(Empty(summaryMax), steps, start) && KeepsFirst(Empty(summaryMax), steps, start)
    ensures var t := AfterAll(Empty(summaryMax), steps, start).table;
      ProcessedExactly(t, start, upTo) && start - 1 <= upTo && CalculatedAreStored(t)
  {
    hide CanRun, AfterAll, KeepsFirst;
    upTo := EpochOrder(Empty(summaryMax), steps, start, start - 1);
  }

  // ---- the program -----------------------------------------------------------------------------

  /** What may happen to a table at an `await`: some of the pending mutations land. */
  ghost predicate Landed(t: Table, t': Table) {
    && t'.rows.Keys == t.rows.Keys && t'.pending <= t.pending && t'.summaryMax == t.summaryMax
    && (forall e :: e in t.rows ==> NoLess(t'.rows[e], t.rows[e]))
    && (forall e :: e in t.rows ==> (t'.rows[e].stored ==> t.rows[e].stored || SetStored(e) in t.pending - t'.pending))
    && (forall e :: e in t.rows ==> (t'.rows[e].calculated ==> t.rows[e].calculated || SetCalculated(e) in t.pending - t'.pending))
    && (forall m :: m in t.pending - t'.pending && m.epoch in t.rows ==> Mutated(t'.rows[m.epoch], m) == t'.rows[m.epoch])
  }

  lemma LandIsLanded(t: Table, t': Table, m: Mutation)
    requires Landed(t, t') && m in t'.pending
    ensures Landed(t, Land(t', m))
  {
  }

  lemma LandedKeeps(t: Table, t': Table, start: int, top: int)
    requires TableInv(t, start, top) && Landed(t, t')
    ensures TableInv(t', start, top) && UpTo(t, top) <= UpTo(t', top)
    ensures t'.rows == map[] <==> t.rows == map[]
  {
    NoKeysNoRows(t.rows);
    NoKeysNoRows(t'.rows);
    assert forall e :: e in t'.rows <==> e in t.rows.Keys;
  }

  lemma LandedTwice(t: Table, t': Table, t'': Table)
    requires Landed(t, t') && Landed(t', t'')
    ensures Landed(t, t'')
  {
    forall e | e in t.rows
      ensures NoLess(t''.rows[e], t.rows[e])
      ensures t''.rows[e].stored ==> t.rows[e].stored || SetStored(e) in t.pending - t''.pending
      ensures t''.rows[e].calculated ==> t.rows[e].calculated || SetCalculated(e) in t.pending - t''.pending
    {
      assert e in t'.rows.Keys;
    }
    forall m | m in t.pending - t''.pending && m.epoch in t.rows
      ensures Mutated(t''.rows[m.epoch], m) == t''.rows[m.epoch]
    {
      assert m.epoch in t'.rows.Keys;
    }
  }

  lemma SameRows(rows: map<int, Row>, rows': map<int, Row>)
    requires rows'.Keys == rows.Keys
    requires forall e :: e in rows ==> rows'[e].stored == rows[e].stored && rows'[e].calculated == rows[e].calculated
    ensures rows' == rows
  {
    forall e | e in rows
      ensures e in rows' && rows'[e] == rows[e]
    {
      assert e in rows'.Keys;
    }
    assert forall e :: e in rows' <==> e in rows.Keys;
  }

  lemma LandedQuietly(t: Table, t': Table)
    requires t.pending == {} && Landed(t, t')
    ensures t' == t
  {
    SameRows(t.rows, t'.rows);
  }

  lemma LandedOne(t: Table, top: int, t': Table)
    requires t.pending == {} && top in t.rows && t.rows[top] == Row(true, false) && Landed(Issue(t, SetCalculated(top)), t')
    ensures t' == Issue(t, SetCalculated(top)) || t' == Completed(t, top)
  {
    var m := SetCalculated(top);
    if m in t'.pending {
      assert t'.pending == {m};
      SameRows(t.rows, t'.rows);
    } else {
      assert t'.pending == {};
      assert m in Issue(t, m).pending - t'.pending;
      SameRows(Completed(t, top).rows, t'.rows);
    }
  }

  class Database {
    var table: Table

    constructor (table: Table)
      ensures this.table == table
    {
      this.table := table;
    }

    /** Pending mutations, whoever issued them, may land at any `await`. */
    method Await()
      modifies this
      ensures Landed(old(table), table)
    {
      var more: bool := *;
      while more && table.pending != {}
        invariant Landed(old(table), table)
        decreases table.pending
      {
        var m :| m in table.pending;
        LandIsLanded(old(table), table, m);
        table := Land(table, m);
        more := *;
      }
    }

    method GetLastProcessedEpoch() returns (p: int)
      modifies this
      ensures Landed(old(table), table) && IsLastProcessed(table.rows, p)
    {
      Await();
      var best: Option<int> := None;
      var todo := table.rows.Keys;
      ghost var seen: set<int> := {};
      while todo != {}
        invariant seen + todo == table.rows.Keys
        invariant best.Some? ==> best.value in seen && Complete(table.rows[best.value])
        invariant forall e :: e in seen && Complete(table.rows[e]) ==> best.Some? && e <= best.value
        modifies {}
      {
        var e := NextKey(todo);
        if Complete(table.rows[e]) && (best.None? || best.value < e) {
          best := Some(e);
        }
        todo, seen := todo - {e}, seen + {e};
      }
      p := best.GetOr(0);
    }

    method GetLastEpoch() returns (epoch: int, row: Row, ghost last: Option<int>)
      modifies this
      ensures Landed(old(table), table)
      ensures IsLast(table.rows, last) && epoch == last.GetOr(0) && row == RowOf(table.rows, last)
    {
      Await();
      var best: Option<int> := None;
      var todo := table.rows.Keys;
      ghost var seen: set<int> := {};
      while todo != {}
        invariant seen + todo == table.rows.Keys
        invariant best.Some? ==> best.value in seen
        invariant best.None? ==> seen == {}
        invariant forall e :: e in seen ==> best.Some? && e <= best.value
        modifies {}
      {
        var e := NextKey(todo);
        if best.None? || best.value < e {
          best := Some(e);
        }
        todo, seen := todo - {e}, seen + {e};
      }
      NoKeysNoRows(table.rows);
      epoch, row, last := best.GetOr(0), if best.Some? then table.rows[best.value] else NEW_ROW, best;
    }

    method GetMaxEpoch() returns (max: int)
      modifies this
      ensures Landed(old(table), table) && max == table.summaryMax
    {
      Await();
      max := table.summaryMax;
    }

    /** Writing the summary of an epoch may fail before or after a row of it is in the database. */
    method WriteSummary(epoch: int) returns (ok: bool)
      modifies this
      ensures exists t :: Landed(old(table), t) && (table == WithSummary(t, epoch) || (!ok && table == t))
    {
      Await();
      ghost var t := table;
      if * {
        return false;
      }
      table := WithSummary(table, epoch);
      ok := *;
      assert Landed(old(table), t);
    }

    /** `seen` is the table at the moment of the read. */
    method GetOrInitEpochProcessing(epoch: int) returns (row: Row, ghost seen: Table)
      modifies this
      ensures Landed(old(table), seen) && table == Ensured(seen, epoch) && row == RowOf(seen.rows, Some(epoch))
    {
      Await();
      seen := table;
      if epoch !in table.rows {
        table := Ensured(table, epoch);
      }
      row := table.rows[epoch];
    }

    /** Issues the mutation and polls until the row differs from what it was; gives up after some attempts. The row
        exists afterwards, and the mutation is still pending or has landed. */
    method UpdateEpochProcessing(m: Mutation, maxRetries: nat) returns (ok: bool, ghost seen: Table)
      modifies this
      ensures Landed(old(table), seen) && Landed(Issue(Ensured(seen, m.epoch), m), table)
      ensures ok ==> table.rows[m.epoch] != RowOf(seen.rows, Some(m.epoch))
    {
      var was;
      was, seen := GetOrInitEpochProcessing(m.epoch);
      table := Issue(table, m);
      ghost var issued := table;
      var tries := maxRetries;
      while tries > 0
        invariant Landed(issued, table)
      {
        ghost var before, now := table, table;
        var updated;
        updated, now := GetOrInitEpochProcessing(m.epoch);
        LandedTwice(issued, before, now);
        assert m.epoch in issued.rows.Keys;
        assert table == now;
        if was != updated {
          return true, seen;
        }
        tries := tries - 1;
      }
      ok := false;
    }
  }

  /** An update of an epoch to work on keeps the table in order, and its success makes the row what it was meant to be. */
  lemma UpdateKeeps(t: Table, seen: Table, m: Mutation, t': Table, start: int, top: int)
    requires TableInv(t, start, top) && CanWorkOn(t, top, m.epoch)
    requires m.SetCalculated? ==> m.epoch == top && top in t.rows && t.rows[top].stored
    requires Landed(t, seen) && Landed(Issue(Ensured(seen, m.epoch), m), t')
    ensures TableInv(t', start, m.epoch) && UpTo(t, top) <= UpTo(t', m.epoch) && t'.rows != map[] && m.epoch in t'.rows
    ensures t'.rows[m.epoch] != RowOf(seen.rows, Some(m.epoch)) ==>
              t'.rows[m.epoch].stored && (m.SetCalculated? ==> Complete(t'.rows[m.epoch]))
  {
    LandedKeeps(t, seen, start, top);
    var issued := Issue(Ensured(seen, m.epoch), m);
    assert m.epoch in issued.rows.Keys;
    EnsuredKeeps(seen, m.epoch, start, top);
    LandedKeeps(issued, t', start, m.epoch);
    assert m.epoch in t.rows.Keys ==> m.epoch in seen.rows && NoLess(seen.rows[m.epoch], t.rows[m.epoch]);
    hide TableInv;
  }

  lemma EnsuredKeeps(t: Table, epoch: int, start: int, top: int)
    requires TableInv(t, start, top) && CanWorkOn(t, top, epoch)
    ensures TableInv(Ensured(t, epoch), start, epoch) && UpTo(t, top) <= UpTo(Ensured(t, epoch), epoch)
  {
  }

  class InspectorService {
    const db: Database
    const start: int

    constructor (db: Database, start: int)
      ensures this.db == db && this.start == start
    {
      this.db, this.start := db, start;
    }

    /** Reads the last processed epoch, then the last one, then if need be the largest in the summary table, with
        mutations landing in between, and chooses by what it read. */
    method ChooseEpochToProcess() returns (next: Choice, ghost p: int, ghost first: Table, ghost last: Option<int>)
      modifies db
      ensures Landed(old(db.table), first) && IsLastProcessed(first.rows, p)
      ensures exists second ::
                && Landed(first, second) && IsLast(second.rows, last) && Landed(second, db.table)
                && ChosenBy(next, start, p, last.GetOr(0), RowOf(second.rows, last), db.table.summaryMax)
    {
      next := Choice(start, false, false);
      var lastProcessed := db.GetLastProcessedEpoch();
      p, first := lastProcessed, db.table;
      var epoch, row;
      epoch, row, last := db.GetLastEpoch();
      ghost var second := db.table;
      NothingLanded(second);
      if epoch == 0 {
        // the first time, the summary table tells where to go on
        lastProcessed := db.GetMaxEpoch();
      }
      if (row.stored && !row.calculated) || (!row.stored && row.calculated) {
        next := Choice(epoch, row.stored, row.calculated);
      }
      if lastProcessed >= next.epoch {
        next := next.(epoch := lastProcessed + 1);
      }
      assert Landed(first, second) && Landed(second, db.table);
      assert ChosenBy(next, start, p, epoch, row, db.table.summaryMax);
    }

    /** One turn of the main loop. It may end early at any point, by an error or because the chosen epoch is not
        over. If the table was in order and its start still to come or begun, it stays in order, and a turn that runs
        to its end leaves its epoch, the last one, complete, and has taken the order at least one epoch further. If the last
        epoch was stored and not calculated, with nothing on its way, the turn issues its calculation and nothing else. */
    method Turn(maxRetries: nat, ghost top: int) returns (ok: bool, ghost top': int)
      modifies db
      ensures Inv(State(old(db.table), Idle), start, top) ==>
                && TableInv(db.table, start, top') && UpTo(old(db.table), top) <= UpTo(db.table, top')
                && (old(db.table).rows != map[] ==> db.table.rows != map[])
                && (ok ==> db.table.rows != map[] && UpTo(db.table, top') == top' > UpTo(old(db.table), top))
      ensures HalfDone(old(db.table), start, top) ==>
                && db.table in {old(db.table), Issue(old(db.table), SetCalculated(top)), Completed(old(db.table), top)}
                && (ok ==> db.table == Completed(old(db.table), top))
    {
      hide TableInv, Landed, ChosenBy, IsLast, IsLastProcessed, StartIsNext;
      ok, top' := false, top;
      ghost var before := db.table;
      ghost var p, first, last;
      var toProcess;
      toProcess, p, first, last := ChooseEpochToProcess();
      ghost var inOrder := Inv(State(before, Idle), start, top);
      if inOrder {
        ChoiceFollows(before, first, db.table, toProcess, p, last, start, top);
      }
      ghost var halfDone := HalfDone(before, start, top);
      if halfDone {
        HalfDoneIsChosen(before, first, db.table, toProcess, p, last, start, top);
      }
      if * {
        return;
      }
      ghost var seen;
      if !toProcess.stored {
        ghost var chosen := db.table;
        ok := db.WriteSummary(toProcess.epoch);
        if inOrder {
          SummaryKeeps(chosen, db.table, toProcess.epoch, start, top);
        }
        if !ok {
          return;
        }
        ghost var written := db.table;
        ok, seen := db.UpdateEpochProcessing(SetStored(toProcess.epoch), maxRetries);
        if inOrder {
          UpdateKeeps(written, seen, SetStored(toProcess.epoch), db.table, start, top);
          top' := toProcess.epoch;
        }
        if !ok {
          return;
        }
      }
      if !toProcess.calculated {
        if * {
          return false, top';
        }
        ghost var stored := db.table;
        ok, seen := db.UpdateEpochProcessing(SetCalculated(toProcess.epoch), maxRetries);
        if inOrder {
          UpdateKeeps(stored, seen, SetCalculated(toProcess.epoch), db.table, start, top');
        }
        if halfDone {
          LandedQuietly(before, seen);
          LandedOne(before, top, db.table);
        }
      }
    }
  }

  lemma NothingLanded(t: Table)
    ensures Landed(t, t)
  {
  }

  /** The choice read off a table in order is of an epoch to work on, even with mutations landing between the reads. */
  lemma ChoiceFollows(t: Table, first: Table, t': Table, c: Choice, p: int, last: Option<int>, start: int, top: int)
    requires Inv(State(t, Idle), start, top) && Landed(t, first) && IsLastProcessed(first.rows, p)
    requires exists second :: && Landed(first, second) && IsLast(second.rows, last) && Landed(second, t')
                              && ChosenBy(c, start, p, last.GetOr(0), RowOf(second.rows, last), t'.summaryMax)
    ensures TableInv(t', start, top) && UpTo(t, top) <= UpTo(t', top) && PhaseInv(t', Chosen(c), start, top)
    ensures t'.rows == map[] <==> t.rows == map[]
    ensures c.epoch > UpTo(t, top)
  {
    var second :| && Landed(first, second) && IsLast(second.rows, last) && Landed(second, t')
                  && ChosenBy(c, start, p, last.GetOr(0), RowOf(second.rows, last), t'.summaryMax);
    ChooseMeans(c, start, p, last.GetOr(0), RowOf(second.rows, last), t'.summaryMax);
    LandedKeeps(t, first, start, top);
    LandedKeeps(first, second, start, top);
    LandedKeeps(second, t', start, top);
    LastProcessedIsNear(first, start, top, p);
    ReadStays(first, second, start, top, p);
    ChooseFollows(second, start, top, p, last);
    ChosenStays(second, t', start, top, c);
    LastIsTop(second, start, top, last);
    assert top in t.rows.Keys <==> top in first.rows.Keys;
    assert top in t.rows && Complete(t.rows[top]) ==> Complete(first.rows[top]) && p == top;
  }

  /** With nothing on its way, a half-done last epoch is chosen for calculation only. */
  lemma HalfDoneIsChosen(t: Table, first: Table, t': Table, c: Choice, p: int, last: Option<int>, start: int, top: int)
    requires HalfDone(t, start, top) && Landed(t, first) && IsLastProcessed(first.rows, p)
    requires exists second :: && Landed(first, second) && IsLast(second.rows, last) && Landed(second, t')
                              && ChosenBy(c, start, p, last.GetOr(0), RowOf(second.rows, last), t'.summaryMax)
    ensures t' == t && c == Choice(top, true, false)
  {
    var second :| && Landed(first, second) && IsLast(second.rows, last) && Landed(second, t')
                  && ChosenBy(c, start, p, last.GetOr(0), RowOf(second.rows, last), t'.summaryMax);
    LandedQuietly(t, first);
    LandedQuietly(first, second);
    LandedQuietly(second, t');
    hide Landed;
    LastIsTop(t, start, top, last);
    LastProcessedIsNear(t, start, top, p);
  }

  lemma ReadStays(t: Table, t': Table, start: int, top: int, p: int)
    requires ReadBefore(t, start, top, p) && Landed(t, t')
    ensures ReadBefore(t', start, top, p)
  {
    assert top in t.rows.Keys <==> top in t'.rows.Keys;
  }

  lemma ChosenStays(t: Table, t': Table, start: int, top: int, c: Choice)
    requires PhaseInv(t, Chosen(c), start, top) && Landed(t, t')
    ensures PhaseInv(t', Chosen(c), start, top)
  {
    assert top in t.rows.Keys <==> top in t'.rows.Keys;
  }

  lemma SummaryKeeps(t: Table, t': Table, epoch: int, start: int, top: int)
    requires TableInv(t, start, top) && CanWorkOn(t, top, epoch)
    requires exists mid :: Landed(t, mid) && (t' == WithSummary(mid, epoch) || t' == mid)
    ensures TableInv(t', start, top) && CanWorkOn(t', top, epoch) && UpTo(t, top) <= UpTo(t', top)
    ensures t'.rows == map[] <==> t.rows == map[]
  {
    var mid :| Landed(t, mid) && (t' == WithSummary(mid, epoch) || t' == mid);
    LandedKeeps(t, mid, start, top);
    assert top in t.rows.Keys <==> top in mid.rows.Keys;
  }
}
