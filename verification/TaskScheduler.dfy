/** One pass of the task scheduler: pending tasks, in name order, are given to the least loaded eligible
    worker that fits them and has room, counting the assignments made earlier in the pass.

    `canon` gives a value's representative under comparison without case and surrounding blanks. */
module TaskScheduler {
  import opened Strings

  datatype Worker = Worker(region: string, gpu: bool, models: seq<string>, maxConcurrent: int, current: int)

  datatype Task = Task(name: string, pending: bool, region: string, gpu: bool, model: string, assignee: string)

  type Workers = map<string, Worker>
  type Counts = map<string, nat>

  predicate Fits(canon: string -> string, t: Task, w: Worker) {
    && (canon(t.region) == canon("") || canon(t.region) == canon(w.region))
    && (t.gpu ==> w.gpu)
    && (canon(t.model) == canon("") || w.models == [] || exists i :: 0 <= i < |w.models| && canon(w.models[i]) == canon(t.model))
  }

  /** What a task can miss in a worker: a region it asks for that is not the worker's, a GPU it asks for, or a
      model it asks for that is not among those the worker names, if it names any. */
  predicate MissesRegion(canon: string -> string, t: Task, w: Worker) {
    canon(t.region) !in {canon(""), canon(w.region)}
  }

  predicate MissesModel(canon: string -> string, t: Task, w: Worker) {
    canon(t.model) != canon("") && w.models != [] && forall m :: m in w.models ==> canon(m) != canon(t.model)
  }

  lemma FitsIff(canon: string -> string, t: Task, w: Worker)
    ensures !Fits(canon, t, w) <==> MissesRegion(canon, t, w) || (t.gpu && !w.gpu) || MissesModel(canon, t, w)
  {
    forall i | 0 <= i < |w.models| ensures w.models[i] in w.models {
    }
  }

  function Limit(w: Worker): int {
    if w.maxConcurrent <= 0 then 1 else w.maxConcurrent
  }

  function CountOf(counts: Counts, name: string): nat {
    if name in counts then counts[name] else 0
  }

  function Load(ws: Workers, counts: Counts, name: string): int
    requires name in ws
  {
    ws[name].current + CountOf(counts, name)
  }

  /** The worker fits the task and has room. */
  predicate Candidate(canon: string -> string, ws: Workers, counts: Counts, t: Task, name: string) {
    name in ws && Fits(canon, t, ws[name]) && Load(ws, counts, name) < Limit(ws[name])
  }

  /** The chosen worker is a candidate, no candidate has less load, and among those of equal load it has the
      smallest name. */
  ghost predicate Best(canon: string -> string, ws: Workers, counts: Counts, t: Task, name: string) {
    && Candidate(canon, ws, counts, t, name)
    && forall n :: Candidate(canon, ws, counts, t, n) && n != name ==>
         Load(ws, counts, name) < Load(ws, counts, n) || (Load(ws, counts, name) == Load(ws, counts, n) && Less(name, n))
  }

  ghost predicate NoCandidate(canon: string -> string, ws: Workers, counts: Counts, t: Task) {
    forall n :: !Candidate(canon, ws, counts, t, n)
  }

  ghost predicate SortedNames(names: seq<string>) {
    forall i, j :: 0 <= i < j < |names| ==> Less(names[i], names[j])
  }

  method SortNames(all: set<string>) returns (names: seq<string>)
    ensures SortedNames(names) && (forall n :: n in names <==> n in all)
  {
    hide Less;
    names := [];
    var todo := all;
    while todo != {}
      invariant todo <= all && SortedNames(names) && (forall n :: n in names <==> n in all - todo)
    {
      var x :| x in todo;
      names := InsertName(names, x);
      todo := todo - {x};
    }
  }

  method InsertName(names: seq<string>, x: string) returns (r: seq<string>)
    requires SortedNames(names) && x !in names
    ensures SortedNames(r) && (forall n :: n in r <==> n in names || n == x)
  {
    hide Less;
    var i := 0;
    while i < |names| && Less(names[i], x)
      invariant i <= |names| && forall j :: 0 <= j < i ==> Less(names[j], x)
    {
      i := i + 1;
    }
    r := names[..i] + [x] + names[i..];
    if i < |names| {
      LessTotal(names[i], x);
    }
    forall j | i <= j < |names| ensures Less(x, names[j]) {
      if i < j {
        LessTransitive(x, names[i], names[j]);
      }
    }
    assert names == names[..i] + names[i..];
  }

  method SelectWorker(canon: string -> string, ws: Workers, counts: Counts, t: Task) returns (r: Option<string>)
    requires "" !in ws
    ensures r.Some? ==> Best(canon, ws, counts, t, r.value)
    ensures r.None? ==> NoCandidate(canon, ws, counts, t)
    ensures r.Some? ==> var w := ws[r.value]; !MissesRegion(canon, t, w) && (t.gpu ==> w.gpu) && !MissesModel(canon, t, w)
    ensures r.None? ==> forall n :: n in ws ==>
              var w, load := ws[n], ws[n].current + if n in counts then counts[n] else 0;
              || MissesRegion(canon, t, w) || (t.gpu && !w.gpu) || MissesModel(canon, t, w)
              || (w.maxConcurrent <= 0 && load >= 1) || (w.maxConcurrent > 0 && load >= w.maxConcurrent)
  {
    hide Less, Fits, MissesRegion, MissesModel;
    var names := SortNames(ws.Keys);
    var selected, selectedLoad := "", 0;
    for i := 0 to |names|
      invariant selected == "" ==> forall j :: 0 <= j < i ==> !Candidate(canon, ws, counts, t, names[j])
      invariant selected != "" ==> Candidate(canon, ws, counts, t, selected) && selectedLoad == Load(ws, counts, selected)
      invariant selected != "" ==> exists j :: 0 <= j < i && names[j] == selected
      invariant selected != "" ==> forall j :: 0 <= j < i && Candidate(canon, ws, counts, t, names[j]) && names[j] != selected ==>
                  selectedLoad < Load(ws, counts, names[j]) || (selectedLoad == Load(ws, counts, names[j]) && Less(selected, names[j]))
    {
      var name := names[i];
      assert name in ws && name != "";
      var worker := ws[name];
      if !Fits(canon, t, worker) {
        continue;
      }
      var load := worker.current + CountOf(counts, name);
      if load >= Limit(worker) {
        continue;
      }
      if selected == "" || load < selectedLoad {
        selected, selectedLoad := name, load;
      }
    }
    if selected == "" {
      forall n | n in ws ensures Fits(canon, t, ws[n]) ==> Load(ws, counts, n) >= Limit(ws[n]) {
        assert !Candidate(canon, ws, counts, t, n);
      }
      forall n | n in ws
        ensures Fits(canon, t, ws[n]) <==> !(MissesRegion(canon, t, ws[n]) || (t.gpu && !ws[n].gpu) || MissesModel(canon, t, ws[n]))
      {
        FitsIff(canon, t, ws[n]);
      }
      return None;
    }
    FitsIff(canon, t, ws[selected]);
    return Some(selected);
  }

  // ---------------------------------------------------------------- the write of a task

  /** What the store answers to one attempt to write a task: it takes it; it has a newer version, which is read;
      it had one, but it is gone by then; or it refuses. */
  datatype Reply = Taken | Conflict(current: Task) | Missing | Rejected

  /** How a write ends: stored, reported as done although nothing is stored, or refused. */
  datatype Upserted = Stored(task: Task) | Nowhere | Refused

  const ATTEMPTS: nat := 5

  /** The task's own status on the requirements of the one that is there. */
  function Onto(t: Task, current: Task): Task {
    t.(region := current.region, gpu := current.gpu, model := current.model)
  }

  function UpsertResult(t: Task, replies: seq<Reply>): Upserted
    decreases |replies|
  {
    if replies == [] then Refused
    else
      match replies[0]
      case Taken => Stored(t)
      case Conflict(current) => UpsertResult(Onto(t, current), replies[1..])
      case Missing => Nowhere
      case Rejected => Refused
  }

  /** The retry loop. */
  method UpsertTask(t: Task, replies: seq<Reply>) returns (r: Upserted)
    requires |replies| == 5
    ensures r == UpsertResult(t, replies)
  {
    var task := t;
    for i := 0 to ATTEMPTS
      invariant UpsertResult(task, replies[i..]) == UpsertResult(t, replies)
    {
      assert replies[i..][1..] == replies[i + 1..];
      match replies[i] {
        case Taken => return Stored(task);
        case Conflict(current) => task := Onto(task, current);
        case Missing => return Nowhere;
        case Rejected => return Refused;
      }
    }
    return Refused;
  }

  /** The task whose requirements a write ends up with: the last one it met in a conflict, if any. */
  function LastMet(t: Task, replies: seq<Reply>): Task
    decreases |replies|
  {
    if replies == [] || !replies[0].Conflict? then t else LastMet(replies[0].current, replies[1..])
  }

  /** What is stored has the status of the pass, over whatever the status became meanwhile, and the requirements
      last met. */
  lemma {:induction false} StoredIs(t: Task, met: Task, replies: seq<Reply>)
    requires t == Onto(t, met)
    ensures UpsertResult(t, replies).Stored? ==> UpsertResult(t, replies).task == Onto(t, LastMet(met, replies))
    decreases |replies|
  {
    if replies != [] && replies[0].Conflict? {
      var current := replies[0].current;
      StoredIs(Onto(t, current), current, replies[1..]);
    }
  }

  /** Whether a write is refused is up to the store alone. */
  lemma {:induction false} RefusedSame(t: Task, u: Task, replies: seq<Reply>)
    ensures UpsertResult(t, replies).Refused? <==> UpsertResult(u, replies).Refused?
    decreases |replies|
  {
    if replies != [] && replies[0].Conflict? {
      RefusedSame(Onto(t, replies[0].current), Onto(u, replies[0].current), replies[1..]);
    }
  }

  /** The worker was chosen for the requirements listed; the task stored with it fits it if and only if those
      last met do. */
  lemma StoredFitsIff(canon: string -> string, t: Task, w: string, worker: Worker, replies: seq<Reply>)
    requires UpsertResult(t.(assignee := w), replies).Stored?
    ensures var stored := UpsertResult(t.(assignee := w), replies).task;
            && stored.assignee == w && stored.pending == t.pending
            && (Fits(canon, stored, worker) <==> Fits(canon, LastMet(t, replies), worker))
  {
    hide UpsertResult, LastMet;
    StoredIs(t.(assignee := w), t, replies);
  }

  /** A conflict with a task that now runs and needs a GPU: it is stored as pending and assigned to a worker
      without one. */
  lemma StaleAssignment(canon: string -> string, t: Task, w: string, worker: Worker)
    requires t.pending && !worker.gpu
    ensures var current := t.(pending := false, gpu := true);
            var r := UpsertResult(t.(assignee := w), [Conflict(current), Taken, Taken, Taken, Taken]);
            r.Stored? && r.task.pending && r.task.assignee == w && !Fits(canon, r.task, worker)
  {
    var current := t.(pending := false, gpu := true);
    var replies := [Conflict(current), Taken, Taken, Taken, Taken];
    assert replies[1..] == [Taken, Taken, Taken, Taken];
  }

  // ---------------------------------------------------------------- a whole pass

  /** What the pass did with a task: not due, assignment still good, given to a worker, left or made
      unassigned, or the write of the task failed, which ends the pass. */
  datatype Outcome = Skipped | Kept | Assigned(worker: string) | Unassigned | Failed

  /** The assignments made by the first outcomes of a pass. */
  function Counted(outcomes: seq<Outcome>): Counts {
    if outcomes == [] then map[]
    else
      var before, last := Counted(outcomes[..|outcomes| - 1]), outcomes[|outcomes| - 1];
      if last.Assigned? then before[last.worker := CountOf(before, last.worker) + 1] else before
  }

  /** The assignment a task already has is still good. */
  predicate StillGood(canon: string -> string, ws: Workers, t: Task) {
    TrimSpace(t.assignee) != "" && TrimSpace(t.assignee) in ws && Fits(canon, t, ws[TrimSpace(t.assignee)])
  }

  /** The outcome is the right one for the task, given the assignments made before it. */
  ghost predicate Right(canon: string -> string, ws: Workers, before: Counts, t: Task, outcome: Outcome) {
    match outcome
    case Skipped => !t.pending
    case Kept => t.pending && StillGood(canon, ws, t)
    case Assigned(w) => t.pending && !StillGood(canon, ws, t) && Best(canon, ws, before, t, w)
    case Unassigned => t.pending && !StillGood(canon, ws, t) && NoCandidate(canon, ws, before, t)
    case Failed => t.pending && !StillGood(canon, ws, t)
  }

  /** The outcome agrees with how the task's write went, if it made one. */
  predicate WroteRight(t: Task, outcome: Outcome, replies: seq<Reply>) {
    match outcome
    case Skipped => true
    case Kept => true
    case Assigned(w) => !UpsertResult(t.(assignee := w), replies).Refused?
    case Unassigned => TrimSpace(t.assignee) == "" || !UpsertResult(t.(assignee := ""), replies).Refused?
    case Failed => UpsertResult(t, replies).Refused?
  }

  /** No worker goes over its limit through an assignment of the pass. */
  predicate WithinLimits(ws: Workers, counts: Counts) {
    forall n :: n in counts && counts[n] > 0 ==>
      n in ws && ws[n].current + counts[n] <= if ws[n].maxConcurrent <= 0 then 1 else ws[n].maxConcurrent
  }

  /** Every task so far got the right outcome for the assignments made before it. */
  ghost predicate AllRight(canon: string -> string, ws: Workers, tasks: seq<Task>, outcomes: seq<Outcome>) {
    |outcomes| <= |tasks|
    && forall i :: 0 <= i < |outcomes| ==> Right(canon, ws, Counted(outcomes[..i]), tasks[i], outcomes[i])
  }

  /** The tasks left unassigned have no fitting worker with room even now. */
  ghost predicate NoneOverlooked(canon: string -> string, ws: Workers, tasks: seq<Task>, outcomes: seq<Outcome>) {
    |outcomes| <= |tasks|
    && forall i :: 0 <= i < |outcomes| && outcomes[i] == Unassigned ==> NoCandidate(canon, ws, Counted(outcomes), tasks[i])
  }

  /** The counts are what they say: how often each worker was assigned. */
  lemma {:induction false} CountedIs(outcomes: seq<Outcome>, w: string)
    ensures multiset(outcomes)[Assigned(w)] == if w in Counted(outcomes) then Counted(outcomes)[w] else 0
  {
    if outcomes != [] {
      var init, last := outcomes[..|outcomes| - 1], outcomes[|outcomes| - 1];
      CountedIs(init, w);
      assert outcomes == init + [last];
    }
  }

  /** No worker is given more tasks than it has room for beside its current ones. */
  ghost predicate RoomForAll(ws: Workers, outcomes: seq<Outcome>) {
    forall w :: Assigned(w) in outcomes ==>
      w in ws && ws[w].current + multiset(outcomes)[Assigned(w)] <= if ws[w].maxConcurrent <= 0 then 1 else ws[w].maxConcurrent
  }

  lemma LimitsMean(ws: Workers, outcomes: seq<Outcome>)
    requires WithinLimits(ws, Counted(outcomes))
    ensures RoomForAll(ws, outcomes)
  {
    hide Counted;
    forall w | Assigned(w) in outcomes
      ensures w in ws && ws[w].current + multiset(outcomes)[Assigned(w)] <= if ws[w].maxConcurrent <= 0 then 1 else ws[w].maxConcurrent
    {
      CountedIs(outcomes, w);
      assert Assigned(w) in multiset(outcomes);
    }
  }

  lemma CountedMore(outcomes: seq<Outcome>, outcome: Outcome)
    ensures Counted(outcomes + [outcome])
         == if outcome.Assigned? then Counted(outcomes)[outcome.worker := CountOf(Counted(outcomes), outcome.worker) + 1] else Counted(outcomes)
  {
  }

  lemma AllRightGrows(canon: string -> string, ws: Workers, tasks: seq<Task>, outcomes: seq<Outcome>, outcome: Outcome)
    requires |outcomes| < |tasks| && AllRight(canon, ws, tasks, outcomes)
    requires Right(canon, ws, Counted(outcomes), tasks[|outcomes|], outcome)
    ensures AllRight(canon, ws, tasks, outcomes + [outcome])
  {
    hide Right, Counted;
    var more := outcomes + [outcome];
    forall i | 0 <= i < |more| ensures Right(canon, ws, Counted(more[..i]), tasks[i], more[i]) {
      assert more[..i] == outcomes[..i];
      assert outcomes[..|outcomes|] == outcomes;
    }
  }

  lemma NoneOverlookedGrows(canon: string -> string, ws: Workers, tasks: seq<Task>, outcomes: seq<Outcome>, outcome: Outcome)
    requires |outcomes| < |tasks| && NoneOverlooked(canon, ws, tasks, outcomes)
    requires Right(canon, ws, Counted(outcomes), tasks[|outcomes|], outcome)
    ensures NoneOverlooked(canon, ws, tasks, outcomes + [outcome])
  {
    hide NoCandidate, Best, StillGood, Counted;
    CountedMore(outcomes, outcome);
    var more := outcomes + [outcome];
    forall i | 0 <= i < |more| && more[i] == Unassigned ensures NoCandidate(canon, ws, Counted(more), tasks[i]) {
      if i < |outcomes| && outcome.Assigned? {
        StillNoCandidate(canon, ws, Counted(outcomes), outcome.worker, tasks[i]);
      }
    }
  }

  lemma LimitsKept(canon: string -> string, ws: Workers, t: Task, outcomes: seq<Outcome>, outcome: Outcome)
    requires WithinLimits(ws, Counted(outcomes)) && Right(canon, ws, Counted(outcomes), t, outcome)
    ensures WithinLimits(ws, Counted(outcomes + [outcome]))
  {
  }

  /** No task comes after one with a larger name. */
  ghost predicate ByName(tasks: seq<Task>) {
    forall i, j :: 0 <= i < j < |tasks| ==> !Less(tasks[j].name, tasks[i].name)
  }

  /** Orders the listed tasks by name; the order of tasks with one name is left to the sort. */
  method SortTasks(listed: seq<Task>) returns (tasks: seq<Task>)
    ensures ByName(tasks) && multiset(tasks) == multiset(listed)
  {
    hide Less;
    tasks := [];
    for k := 0 to |listed|
      invariant ByName(tasks) && multiset(tasks) == multiset(listed[..k])
    {
      tasks := InsertTask(tasks, listed[k]);
      assert listed[..k + 1] == listed[..k] + [listed[k]];
    }
    assert listed[..|listed|] == listed;
  }

  method InsertTask(tasks: seq<Task>, t: Task) returns (r: seq<Task>)
    requires ByName(tasks)
    ensures ByName(r) && multiset(r) == multiset(tasks) + multiset{t}
  {
    hide Less;
    var i := 0;
    while i < |tasks| && !Less(t.name, tasks[i].name)
      invariant i <= |tasks| && forall j :: 0 <= j < i ==> !Less(t.name, tasks[j].name)
    {
      i := i + 1;
    }
    r := tasks[..i] + [t] + tasks[i..];
    forall j | i <= j < |tasks| ensures !Less(tasks[j].name, t.name) {
      if Less(tasks[j].name, t.name) {
        LessTransitive(tasks[j].name, t.name, tasks[i].name);
        LessTotal(tasks[i].name, tasks[i].name);
      }
    }
    assert tasks == tasks[..i] + tasks[i..];
  }

  /** A pass over the listed tasks, in name order; `writes[i]` are the store's answers for the i-th of them.
      Each task gets the right outcome, no worker is filled beyond its limit, and what is left unassigned has no
      fitting worker with room even when the pass is over. Only a failed write ends the pass early; without any
      eligible worker there is no pass, and stale assignments stay. */
  method ReconcileOnce(canon: string -> string, ws: Workers, listed: seq<Task>, writes: seq<seq<Reply>>)
    returns (tasks: seq<Task>, outcomes: seq<Outcome>)
    requires "" !in ws && |writes| == |listed| && forall i :: 0 <= i < |writes| ==> |writes[i]| == 5
    ensures ByName(tasks) && multiset(tasks) == multiset(listed)
    ensures PassOver(canon, ws, tasks, writes, outcomes) && RoomForAll(ws, outcomes)
  {
    hide ByName, AllRight, NoneOverlooked, WithinLimits, WroteRight, RoomForAll, Counted;
    tasks := SortTasks(listed);
    SameSize(tasks, listed);
    outcomes := ReconcileAll(canon, ws, tasks, writes);
    LimitsMean(ws, outcomes);
  }

  lemma SameSize(a: seq<Task>, b: seq<Task>)
    requires multiset(a) == multiset(b)
    ensures |a| == |b|
  {
    assert |multiset(a)| == |a| && |multiset(b)| == |b|;
  }

  /** What a pass promises. */
  ghost predicate PassOver(canon: string -> string, ws: Workers, tasks: seq<Task>, writes: seq<seq<Reply>>, outcomes: seq<Outcome>) {
    && |writes| == |tasks|
    && AllRight(canon, ws, tasks, outcomes) && NoneOverlooked(canon, ws, tasks, outcomes) && WithinLimits(ws, Counted(outcomes))
    && (ws == map[] ==> outcomes == [])
    && (forall i :: 0 <= i < |outcomes| ==> WroteRight(tasks[i], outcomes[i], writes[i]))
    && (ws != map[] && |outcomes| < |tasks| ==> outcomes != [] && outcomes[|outcomes| - 1] == Failed)
    && (forall i :: 0 <= i < |outcomes| - 1 ==> outcomes[i] != Failed)
  }

  method ReconcileAll(canon: string -> string, ws: Workers, tasks: seq<Task>, writes: seq<seq<Reply>>) returns (outcomes: seq<Outcome>)
    requires "" !in ws && |writes| == |tasks| && forall i :: 0 <= i < |writes| ==> |writes[i]| == 5
    ensures PassOver(canon, ws, tasks, writes, outcomes)
  {
    hide Right, Counted, WithinLimits, NoCandidate, WroteRight;
    var newAssignments: Counts := map[];
    outcomes := [];
    NothingCounted(ws);
    if ws == map[] {
      return;
    }
    for i := 0 to |tasks|
      invariant |outcomes| == i && newAssignments == Counted(outcomes) && WithinLimits(ws, newAssignments)
      invariant AllRight(canon, ws, tasks, outcomes) && NoneOverlooked(canon, ws, tasks, outcomes)
      invariant forall j :: 0 <= j < i ==> outcomes[j] != Failed && WroteRight(tasks[j], outcomes[j], writes[j])
    {
      var outcome := ReconcileTask(canon, ws, newAssignments, tasks[i], writes[i]);
      AllRightGrows(canon, ws, tasks, outcomes, outcome);
      NoneOverlookedGrows(canon, ws, tasks, outcomes, outcome);
      LimitsKept(canon, ws, tasks[i], outcomes, outcome);
      CountedMore(outcomes, outcome);
      outcomes := outcomes + [outcome];
      if outcome == Failed {
        return;
      }
      if outcome.Assigned? {
        newAssignments := newAssignments[outcome.worker := CountOf(newAssignments, outcome.worker) + 1];
      }
    }
  }

  lemma NothingCounted(ws: Workers)
    ensures Counted([]) == map[] && WithinLimits(ws, map[])
  {
  }

  method ReconcileTask(canon: string -> string, ws: Workers, counts: Counts, t: Task, replies: seq<Reply>) returns (outcome: Outcome)
    requires "" !in ws && |replies| == 5
    ensures Right(canon, ws, counts, t, outcome) && WroteRight(t, outcome, replies)
  {
    hide Fits, Best, NoCandidate, TrimSpace, UpsertResult;
    if !t.pending {
      return Skipped;
    }
    var current := TrimSpace(t.assignee);
    if current != "" && current in ws && Fits(canon, t, ws[current]) {
      return Kept;
    }
    var task := if current != "" then t.(assignee := "") else t;
    var r := SelectWorker(canon, ws, counts, t);
    if r.None? {
      if current != "" {
        var upserted := UpsertTask(task, replies);
        RefusedSame(t, task, replies);
        return if upserted.Refused? then Failed else Unassigned;
      }
      return Unassigned;
    }
    task := task.(assignee := r.value);
    var upserted := UpsertTask(task, replies);
    RefusedSame(t, task, replies);
    if upserted.Refused? {
      return Failed;
    }
    return Assigned(r.value);
  }

  /** Loads only grow during a pass, so a task without a candidate has none later. */
  lemma StillNoCandidate(canon: string -> string, ws: Workers, counts: Counts, w: string, t: Task)
    requires NoCandidate(canon, ws, counts, t)
    ensures NoCandidate(canon, ws, counts[w := CountOf(counts, w) + 1], t)
  {
    hide Fits;
    var more := counts[w := CountOf(counts, w) + 1];
    forall n ensures !Candidate(canon, ws, more, t, n) {
      assert !Candidate(canon, ws, counts, t, n);
    }
  }

  /** The choice leaves no freedom: two best workers are the same worker. */
  lemma BestIsUnique(canon: string -> string, ws: Workers, counts: Counts, t: Task, v: string, w: string)
    requires Best(canon, ws, counts, t, v) && Best(canon, ws, counts, t, w)
    ensures v == w
  {
    LessTotal(v, w);
  }
}
