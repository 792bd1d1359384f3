/**
  Runs of the batch store: calls of any number of users interleaved with the rounds of the sweeper
  (service/upload/batch_sweeper.go), which lists batches first and acts on the list later.
*/
module BatchRuns {
  import opened Strings
  import opened Paths
  import opened UploadBatches
  import opened BatchStore

  /** Where a round of SweepBatches stands; the rows it holds are those it listed. */
  datatype Sweeper =
    | Resting
    | Interrupting(now: int, todo: Rows)
    | Cleaning(now: int, listed: Rows, todo: Rows)
    | Abandoning(todo: Rows)
    | Deleting(ids: set<Id>)

  type Sid = nat

  datatype State = State(rows: Rows, sweepers: map<Sid, Sweeper>) {
    function At(t: Sid, w: Sweeper): State { this.(sweepers := sweepers[t := w]) }
  }

  const InitialState := State(map[], map[])

  /** A user's call, or one action of a sweeper: `id` is the next row of its list, `orphaned` what a look at the disk tells. */
  datatype Step = User(call: Call) | Sweep(t: Sid, id: Id, now: int, orphaned: bool)

  function Listed(rows: Rows, status: Status): Rows { map id | id in rows && rows[id].status == status :: rows[id] }

  function Standing(s: State, t: Sid): Sweeper { if t in s.sweepers then s.sweepers[t] else Resting }

  /** An action on a list names one of its rows while there are any. */
  predicate Enabled(s: State, step: Step) {
    match step
    case User(call) => true
    case Sweep(t, id, _, _) =>
      match Standing(s, t)
      case Resting => true
      case Deleting(ids) => ids == {} || id in ids
      case Interrupting(_, todo) => todo == map[] || id in todo
      case Cleaning(_, _, todo) => todo == map[] || id in todo
      case Abandoning(todo) => todo == map[] || id in todo
  }

  function SweepAct(s: State, t: Sid, w: Sweeper, id: Id, now: int, orphaned: bool): State {
    match w
    case Resting => s.At(t, Interrupting(now, Listed(s.rows, Active)))
    case Interrupting(now, todo) =>
      if todo == map[] then s.At(t, Cleaning(now, Listed(s.rows, Interrupted), Listed(s.rows, Interrupted)))
      else if id in todo && now - LastSign(todo[id]) > IdleSeconds then
        s.(rows := Apply(s.rows, Interrupt(id, now, Timeout))).At(t, Interrupting(now, todo - {id}))
      else s.At(t, Interrupting(now, todo - {id}))
    case Cleaning(now, listed, todo) =>
      if todo == map[] then s.At(t, Abandoning(listed))
      else if id in todo && !todo[id].cleaned && now - todo[id].interruptedAt > GraceSeconds then
        s.(rows := Apply(s.rows, StagingCleaned(id))).At(t, Cleaning(now, listed, todo - {id}))
      else s.At(t, Cleaning(now, listed, todo - {id}))
    case Abandoning(todo) =>
      if todo == map[] then s.At(t, Deleting(set x | x in s.rows && Terminal(s.rows[x])))
      else if orphaned then s.(rows := Apply(s.rows, Abandon(id))).At(t, Abandoning(todo - {id}))
      else s.At(t, Abandoning(todo - {id}))
    case Deleting(ids) =>
      if ids == {} then s.At(t, Resting) else s.(rows := s.rows - {id}).At(t, Deleting(ids - {id}))
  }

  function Take(s: State, step: Step): State {
    match step
    case User(call) => s.(rows := Apply(s.rows, call))
    case Sweep(t, id, now, orphaned) => SweepAct(s, t, Standing(s, t), id, now, orphaned)
  }

  datatype Run = Run(states: seq<State>, steps: seq<Step>)

  ghost predicate StepAt(run: Run, i: nat)
    requires |run.states| == |run.steps| + 1 && i < |run.steps|
  {
    Enabled(run.states[i], run.steps[i]) && run.states[i + 1] == Take(run.states[i], run.steps[i])
  }

  ghost predicate IsRun(run: Run) {
    && |run.states| == |run.steps| + 1 && run.states[0] == InitialState
    && forall i :: 0 <= i < |run.steps| ==> StepAt(run, i)
  }

  /** The step deletes a row. */
  predicate Deletes(s: State, step: Step) {
    step.Sweep? && Standing(s, step.t).Deleting? && Standing(s, step.t).ids != {}
  }

  /** On a row that is still as listed, each action of a round does what the undisturbed round does to it. */
  lemma ActionsAreTheRound(s: State, t: Sid, w: Sweeper, id: Id, now: int, orphaned: bool)
    requires id in s.rows
    ensures w.Interrupting? && id in w.todo && w.todo[id] == s.rows[id] && s.rows[id].status.Active? ==>
      SweepAct(s, t, w, id, now, orphaned).rows == s.rows[id := AfterIdle(s.rows[id], w.now)]
    ensures w.Cleaning? && id in w.todo && w.todo[id] == s.rows[id] && s.rows[id].status.Interrupted? ==>
      SweepAct(s, t, w, id, now, orphaned).rows == s.rows[id := AfterGrace(s.rows[id], w.now)]
    ensures w.Abandoning? && id in w.todo && s.rows[id].status.Interrupted? ==>
      SweepAct(s, t, w, id, now, orphaned).rows == s.rows[id := AfterOrphan(s.rows[id], if orphaned then {s.rows[id].target} else {})]
    ensures w.Deleting? && id in w.ids ==> SweepAct(s, t, w, id, now, orphaned).rows == s.rows - {id}
    ensures w.Abandoning? && w.todo == map[] ==>
      SweepAct(s, t, w, id, now, orphaned).sweepers[t] == Deleting(set x | x in s.rows && Terminal(s.rows[x]))
  {
    assert s.rows[id := s.rows[id]] == s.rows;
  }

  // ----- counts

  lemma TakeOk(s: State, step: Step)
    requires RowsOk(s.rows)
    ensures RowsOk(Take(s, step).rows)
  {
    match step
    case User(call) => ApplyOk(s.rows, call);
    case Sweep(t, id, now, orphaned) =>
      match Standing(s, t) {
        case Interrupting(start, todo) => ApplyOk(s.rows, Interrupt(id, start, Timeout));
        case Cleaning(start, listed, todo) => ApplyOk(s.rows, StagingCleaned(id));
        case Abandoning(todo) => ApplyOk(s.rows, Abandon(id));
        case _ =>
      }
  }

  /** In every run: counts are those of the items, completed means all done, active or interrupted means something is missing. */
  lemma {:induction false} CountsHold(run: Run, i: nat)
    requires IsRun(run) && i < |run.states|
    ensures RowsOk(run.states[i].rows)
  {
    if i > 0 {
      CountsHold(run, i - 1);
      assert StepAt(run, i - 1);
      TakeOk(run.states[i - 1], run.steps[i - 1]);
    }
  }

  // ----- what never comes back

  /** Terminal, or interrupted by the window-close signal. */
  predicate Stuck(b: Batch) { Terminal(b) || (b.status.Interrupted? && b.source == Signal) }

  lemma ApplyKeepsStuck(rows: Rows, call: Call, id: Id)
    requires id in rows
    ensures id in Apply(rows, call)
    ensures Terminal(rows[id]) ==> Terminal(Apply(rows, call)[id])
    ensures Stuck(rows[id]) ==> Stuck(Apply(rows, call)[id])
  {
  }

  lemma TakeKeepsStuck(s: State, step: Step, id: Id)
    requires id in s.rows && id in Take(s, step).rows
    ensures Terminal(s.rows[id]) ==> Terminal(Take(s, step).rows[id])
    ensures Stuck(s.rows[id]) ==> Stuck(Take(s, step).rows[id])
  {
    match step
    case User(call) => ApplyKeepsStuck(s.rows, call, id);
    case Sweep(t, x, now, orphaned) =>
      match Standing(s, t) {
        case Interrupting(start, todo) => ApplyKeepsStuck(s.rows, Interrupt(x, start, Timeout), id);
        case Cleaning(start, listed, todo) => ApplyKeepsStuck(s.rows, StagingCleaned(x), id);
        case Abandoning(todo) => ApplyKeepsStuck(s.rows, Abandon(x), id);
        case _ =>
      }
  }

  ghost predicate Present(run: Run, i: nat, j: nat, id: Id) {
    j < |run.states| && forall k :: i <= k <= j ==> id in run.states[k].rows
  }

  /** While its row exists, a terminal batch stays terminal, and a signal-interrupted one is never active again. */
  lemma {:induction false} NeverComesBack(run: Run, i: nat, j: nat, id: Id)
    requires IsRun(run) && i <= j && Present(run, i, j, id)
    ensures Terminal(run.states[i].rows[id]) ==> Terminal(run.states[j].rows[id])
    ensures Stuck(run.states[i].rows[id]) ==> Stuck(run.states[j].rows[id]) && !run.states[j].rows[id].status.Active?
  {
    if i < j {
      NeverComesBack(run, i, j - 1, id);
      assert StepAt(run, j - 1);
      TakeKeepsStuck(run.states[j - 1], run.steps[j - 1], id);
    }
  }

  /** A signal that meets an active batch is final: the batch is never active again while its row exists. */
  lemma SignalIsFinal(run: Run, i: nat, j: nat, id: Id, now: int)
    requires IsRun(run) && i < j && Present(run, i, j, id) && i < |run.steps| && run.steps[i] == User(Interrupt(id, now, Signal))
    requires run.states[i].rows[id].status.Active?
    ensures run.states[i + 1].rows[id].status.Interrupted? && !run.states[j].rows[id].status.Active?
  {
    assert StepAt(run, i);
    NeverComesBack(run, i + 1, j, id);
  }

  // ----- deletion from a list made earlier

  ghost predicate OneSweeper(run: Run) {
    forall i :: 0 <= i < |run.steps| ==> run.steps[i].Sweep? ==> run.steps[i].t == 0
  }

  ghost predicate ListedTerminal(s: State) {
    && s.sweepers.Keys <= {0}
    && match Standing(s, 0)
       case Deleting(ids) => forall id :: id in ids ==> id in s.rows && Terminal(s.rows[id])
       case _ => true
  }

  lemma ListedStep(s: State, step: Step)
    requires ListedTerminal(s) && (step.Sweep? ==> step.t == 0)
    ensures ListedTerminal(Take(s, step))
  {
    var s' := Take(s, step);
    if step.User? && Standing(s, 0).Deleting? {
      forall id | id in Standing(s, 0).ids ensures id in s'.rows && Terminal(s'.rows[id]) {
        ApplyKeepsStuck(s.rows, step.call, id);
      }
    }
  }

  lemma {:induction false} ListedRun(run: Run, i: nat)
    requires IsRun(run) && OneSweeper(run) && i < |run.states|
    ensures ListedTerminal(run.states[i])
  {
    if i > 0 {
      ListedRun(run, i - 1);
      assert StepAt(run, i - 1);
      assert run.steps[i - 1].Sweep? ==> run.steps[i - 1].t == 0;
      ListedStep(run.states[i - 1], run.steps[i - 1]);
    }
  }

  /** With one sweeper a deletion only ever takes a row that is terminal at that moment. */
  lemma OneSweeperDeletesOnlyTerminal(run: Run, i: nat)
    requires IsRun(run) && OneSweeper(run) && i < |run.steps| && Deletes(run.states[i], run.steps[i])
    ensures run.steps[i].id in run.states[i].rows && Terminal(run.states[i].rows[run.steps[i].id])
  {
    ListedRun(run, i);
    assert StepAt(run, i);
  }

  /** So a batch that is active or interrupted is never lost: its row is there after every step. */
  lemma OpenBatchesAreKept(run: Run, i: nat, id: Id)
    requires IsRun(run) && OneSweeper(run) && i < |run.steps| && id in run.states[i].rows && Open(run.states[i].rows[id])
    ensures id in run.states[i + 1].rows
  {
    assert StepAt(run, i);
    var s, step := run.states[i], run.steps[i];
    if step.User? { ApplyKeepsStuck(s.rows, step.call, id); }
    if Deletes(s, step) { OneSweeperDeletesOnlyTerminal(run, i); }
  }

  // ----- any number of sweepers

  /** Step i is the listing from which the sweeper will delete the row, and the row is terminal there. */
  ghost predicate ListsAt(run: Run, i: nat, t: Sid, id: Id) {
    && |run.states| == |run.steps| + 1 && i < |run.steps| && run.steps[i].Sweep? && run.steps[i].t == t
    && Standing(run.states[i], t).Abandoning? && Standing(run.states[i + 1], t).Deleting? && id in Standing(run.states[i + 1], t).ids
    && id in run.states[i].rows && Terminal(run.states[i].rows[id])
  }

  /** Step k makes a new batch under the id. */
  ghost predicate CreatesAt(run: Run, k: nat, id: Id) {
    && |run.states| == |run.steps| + 1 && k < |run.steps| && run.steps[k].User? && run.steps[k].call.Create? && run.steps[k].call.id == id
    && id !in run.states[k].rows && id in run.states[k + 1].rows
  }

  predicate GoneOrTerminal(s: State, id: Id) { id in s.rows ==> Terminal(s.rows[id]) }

  lemma StaysGoneOrTerminal(s: State, step: Step, id: Id)
    requires GoneOrTerminal(s, id)
    ensures GoneOrTerminal(Take(s, step), id)
      || (step.User? && step.call.Create? && step.call.id == id && id !in s.rows && id in Take(s, step).rows)
  {
    if id in s.rows && id in Take(s, step).rows { TakeKeepsStuck(s, step, id); }
    else if id !in s.rows && id in Take(s, step).rows { NewRows(s, step, id); }
  }

  lemma NewRows(s: State, step: Step, id: Id)
    requires id !in s.rows && id in Take(s, step).rows
    ensures step.User? && step.call.Create? && step.call.id == id
  {
  }

  lemma {:induction false} UnlessCreated(run: Run, i: nat, j: nat, id: Id)
    requires IsRun(run) && i <= j < |run.states| && GoneOrTerminal(run.states[i], id)
    ensures GoneOrTerminal(run.states[j], id) || exists k: nat :: i <= k < j && CreatesAt(run, k, id)
  {
    if i < j {
      UnlessCreated(run, i, j - 1, id);
      if GoneOrTerminal(run.states[j - 1], id) {
        assert StepAt(run, j - 1);
        StaysGoneOrTerminal(run.states[j - 1], run.steps[j - 1], id);
        if !GoneOrTerminal(run.states[j], id) { assert CreatesAt(run, j - 1, id); }
      }
    }
  }

  /** A sweeper's list to delete comes from one listing. */
  lemma {:induction false} ListedSomewhere(run: Run, j: nat, t: Sid, id: Id) returns (i: nat)
    requires IsRun(run) && j < |run.states| && Standing(run.states[j], t).Deleting? && id in Standing(run.states[j], t).ids
    ensures i < j && ListsAt(run, i, t, id)
  {
    assert j > 0;
    assert StepAt(run, j - 1);
    var s, step := run.states[j - 1], run.steps[j - 1];
    if Standing(s, t).Deleting? && id in Standing(s, t).ids { i := ListedSomewhere(run, j - 1, t, id); }
    else {
      ListingStep(s, step, t, id);
      i := j - 1;
    }
  }

  lemma ListingStep(s: State, step: Step, t: Sid, id: Id)
    requires Standing(Take(s, step), t).Deleting? && id in Standing(Take(s, step), t).ids
    requires !(Standing(s, t).Deleting? && id in Standing(s, t).ids)
    ensures step.Sweep? && step.t == t && Standing(s, t).Abandoning? && id in s.rows && Terminal(s.rows[id])
  {
  }

  /**
    With any number of sweepers: a deletion takes a row that is terminal, or none, unless a new batch was made under the id
    after the sweeper had listed it.
  */
  lemma DeletesTerminalUnlessReused(run: Run, j: nat) returns (i: nat)
    requires IsRun(run) && j < |run.steps| && Deletes(run.states[j], run.steps[j])
    ensures i < j && ListsAt(run, i, run.steps[j].t, run.steps[j].id)
    ensures GoneOrTerminal(run.states[j], run.steps[j].id) || exists k: nat :: i <= k < j && CreatesAt(run, k, run.steps[j].id)
  {
    assert StepAt(run, j);
    i := ListedSomewhere(run, j, run.steps[j].t, run.steps[j].id);
    UnlessCreated(run, i, j, run.steps[j].id);
  }

  // ----- the exception is real

  function Last(run: Run): State
    requires run.states != []
  {
    run.states[|run.states| - 1]
  }

  /** The run with one more step. */
  function Then(run: Run, step: Step): Run
    requires run.states != []
  {
    Run(run.states + [Take(Last(run), step)], run.steps + [step])
  }

  lemma ThenIsRun(run: Run, step: Step)
    requires IsRun(run) && Enabled(Last(run), step)
    ensures IsRun(Then(run, step)) && Last(Then(run, step)) == Take(Last(run), step)
  {
    var more := Then(run, step);
    forall i | 0 <= i < |more.steps| ensures StepAt(more, i) {
      if i < |run.steps| { assert StepAt(run, i); }
    }
  }

  /** A sweeper that finds only terminal rows gets to its deletions in four actions. */
  lemma ToDeletions(run: Run, t: Sid) returns (more: Run)
    requires IsRun(run) && Standing(Last(run), t).Resting? && forall id :: id in Last(run).rows ==> Terminal(Last(run).rows[id])
    ensures IsRun(more) && Last(more).rows == Last(run).rows
    ensures Last(more).sweepers == Last(run).sweepers[t := Deleting(Last(run).rows.Keys)]
  {
    var step := Sweep(t, "", 0, false);
    var s := Last(run);
    assert Listed(s.rows, Active) == map[] && Listed(s.rows, Interrupted) == map[];
    more := run;
    ThenIsRun(more, step);
    more := Then(more, step);
    assert Last(more) == s.At(t, Interrupting(0, map[]));
    ThenIsRun(more, step);
    more := Then(more, step);
    assert Last(more) == s.At(t, Cleaning(0, map[], map[]));
    ThenIsRun(more, step);
    more := Then(more, step);
    assert Last(more) == s.At(t, Abandoning(map[]));
    ThenIsRun(more, step);
    more := Then(more, step);
    assert (set x | x in s.rows && Terminal(s.rows[x])) == s.rows.Keys;
  }

  ghost predicate EndsByDeletingActive(run: Run) {
    |run.states| == |run.steps| + 1 && run.steps != [] &&
    var s, step := run.states[|run.steps| - 1], run.steps[|run.steps| - 1];
    Deletes(s, step) && step.id in s.rows && s.rows[step.id].status.Active?
  }

  /** Two sweepers list the same terminal batch; the first deletes it, its id is used again, and the second deletes an active batch. */
  lemma TwoSweepersCanDeleteActive()
    ensures exists run :: IsRun(run) && EndsByDeletingActive(run)
  {
    var submit := User(Create("b", "u", "/", ["a"], 1));
    assert Acceptable("b", "/", ["a"]) by { assert !Contains("a", "..") by { assert !Contains("a"[1..], ".."); } }
    var run := Run([InitialState], []);
    ThenIsRun(run, submit);
    run := Then(run, submit);
    ThenIsRun(run, User(Abandon("b")));
    run := Then(run, User(Abandon("b")));
    assert Last(run).rows.Keys == {"b"} && Last(run).rows["b"].status.Abandoned?;
    run := ToDeletions(run, 0);
    run := ToDeletions(run, 1);
    var first, second := Sweep(0, "b", 0, false), Sweep(1, "b", 0, false);
    ThenIsRun(run, first);
    run := Then(run, first);
    assert Last(run).rows == map[];
    ThenIsRun(run, submit);
    run := Then(run, submit);
    assert Last(run).rows["b"].status.Active?;
    assert Standing(Last(run), 1) == Deleting({"b"});
    ThenIsRun(run, second);
    run := Then(run, second);
    assert IsRun(run) && EndsByDeletingActive(run);
  }
}
