/** Recurring task schedules: each tick finds the latest slot at or before now and, if it is new and within
    its deadline, makes sure its run task exists.

    Slots are minutes and instants nanoseconds in UTC, as in CronScan. `lower` is the lower-casing of
    names. */
module Schedule {
  import opened Strings
  import opened Calendar
  import opened CronScan

  // ---------------------------------------------------------------- names of run tasks

  function Pad2(n: nat): (s: string)
    requires n < 100
    ensures |s| == 2 && AllDigits(s)
  {
    [Digit(n / 10), Digit(n % 10)]
  }

  /** Zeros in front of a number, up to four digits. */
  function PadYear(y: nat): string {
    Zeros(Decimal(y))
  }

  function Zeros(s: string): (r: string)
    requires AllDigits(s)
    ensures AllDigits(r) && |r| >= 4 && DigitsValue(r) == DigitsValue(s)
    decreases 4 - |s|
  {
    if |s| >= 4 then s else ZeroFirst(s); Zeros("0" + s)
  }

  lemma {:induction false} ZeroFirst(s: string)
    requires AllDigits(s)
    ensures AllDigits("0" + s) && DigitsValue("0" + s) == DigitsValue(s)
  {
    if s == "" {
      assert DigitsValue("0") == 10 * DigitsValue("0"[..0]) + 0;
    } else {
      ZeroFirst(s[..|s| - 1]);
      assert ("0" + s)[..|s|] == "0" + s[..|s| - 1];
    }
  }

  function SlotDate(slot: nat): string {
    SlotPositive(slot);
    var d := DateOf(slot / 1440);
    PadYear(d.year) + Pad2(d.month) + Pad2(d.day)
  }

  function SlotTime(slot: nat): string {
    Pad2(slot % 1440 / 60) + Pad2(slot % 60)
  }

  /** The slot as 20060102-1504. */
  function SlotName(slot: nat): string {
    SlotDate(slot) + "-" + SlotTime(slot)
  }

  lemma SlotPositive(slot: nat)
    ensures var d := DateOf(slot / 1440); d.year >= 1 && 1 <= d.month <= 12 && 1 <= d.day <= 31
  {
    hide BeforeYear, DateOf;
    var d := DateOf(slot / 1440);
    WithinYear(d);
    FirstDay();
    if d.year < 1 {
      YearsOrdered(d.year + 1, 1);
    }
  }

  lemma FirstDay()
    ensures BeforeYear(1) == 0
  {
  }

  lemma Pad2Injective(m: nat, n: nat)
    requires m < 100 && n < 100 && Pad2(m) == Pad2(n)
    ensures m == n
  {
  }

  lemma SplitEqual(a: string, b: string, c: string, d: string)
    requires a + b == c + d && |b| == |d|
    ensures a == c && b == d
  {
    assert |a| == |c|;
    assert (a + b)[..|a|] == a && (c + d)[..|a|] == c;
    assert (a + b)[|a|..] == b && (c + d)[|a|..] == d;
  }

  /** Different slots have different names. */
  lemma SlotNameInjective(a: nat, b: nat)
    requires SlotName(a) == SlotName(b)
    ensures a == b
  {
    hide DateOf, Pad2, PadYear, Split;
    SlotPositive(a);
    SlotPositive(b);
    var d, e := DateOf(a / 1440), DateOf(b / 1440);
    var ya, ma, da, ha, na := PadYear(d.year), Pad2(d.month), Pad2(d.day), Pad2(a % 1440 / 60), Pad2(a % 60);
    var yb, mb, db, hb, nb := PadYear(e.year), Pad2(e.month), Pad2(e.day), Pad2(b % 1440 / 60), Pad2(b % 60);
    assert SlotName(a) == SlotDate(a) + ("-" + SlotTime(a)) && SlotName(b) == SlotDate(b) + ("-" + SlotTime(b));
    SplitEqual(SlotDate(a), "-" + SlotTime(a), SlotDate(b), "-" + SlotTime(b));
    SplitEqual("-", SlotTime(a), "-", SlotTime(b));
    SplitEqual(ha, na, hb, nb);
    SplitEqual(ya + ma, da, yb + mb, db);
    SplitEqual(ya, ma, yb, mb);
    PadYearInjective(d.year, e.year);
    Pad2Injective(d.month, e.month);
    Pad2Injective(d.day, e.day);
    Pad2Injective(a % 1440 / 60, b % 1440 / 60);
    Pad2Injective(a % 60, b % 60);
    SameMinute(a, b);
  }

  lemma PadYearInjective(y: nat, z: nat)
    requires PadYear(y) == PadYear(z)
    ensures y == z
  {
  }

  lemma SameMinute(a: nat, b: nat)
    requires DateOf(a / 1440) == DateOf(b / 1440) && a % 1440 / 60 == b % 1440 / 60 && a % 60 == b % 60
    ensures a == b
  {
    hide DateOf, DayNumber;
    assert a / 1440 == DayNumber(DateOf(a / 1440)) && b / 1440 == DayNumber(DateOf(b / 1440));
    MinuteOfDay(a);
    MinuteOfDay(b);
  }

  lemma MinuteOfDay(a: nat)
    ensures a == 1440 * (a / 1440) + 60 * (a % 1440 / 60) + a % 60
  {
  }

  /** The characters of a name that are kept. */
  predicate Plain(c: char) {
    'a' <= c <= 'z' || IsDigit(c)
  }

  /** Runs of other characters become one dash; `dash` says whether the text so far ends in one. */
  function Dashed(s: string, dash: bool): string {
    if s == "" then ""
    else if Plain(s[0]) then [s[0]] + Dashed(s[1..], false)
    else if dash then Dashed(s[1..], true)
    else "-" + Dashed(s[1..], true)
  }

  function TrimDashes(s: string): string {
    if s != "" && s[0] == '-' then TrimDashes(s[1..])
    else if s != "" && s[|s| - 1] == '-' then TrimDashes(s[..|s| - 1])
    else s
  }

  function Base(name: string, lower: string -> string): string {
    var clean := TrimDashes(Dashed(lower(TrimSpace(name)), false));
    var base := if clean == "" then "schedule" else clean;
    if |base| > 40 then TrimDashes(base[..40]) else base
  }

  function ScheduledTaskName(name: string, slot: nat, lower: string -> string): string {
    Base(name, lower) + "-" + SlotName(slot)
  }

  function RunKey(namespace: string, name: string, slot: nat, lower: string -> string): string {
    namespace + "/" + ScheduledTaskName(name, slot, lower)
  }

  lemma NoDash(slot: nat)
    ensures '-' !in SlotDate(slot) && '-' !in SlotTime(slot)
  {
  }

  /** The slot name can be read off the end of a task name: it is what follows the second dash from the end. */
  lemma LastTwoParts(x: string, slot: nat)
    ensures Split(x + "-" + SlotName(slot), '-') == Split(x, '-') + [SlotDate(slot), SlotTime(slot)]
  {
    hide SlotDate, SlotTime;
    NoDash(slot);
    assert x + "-" + SlotName(slot) == x + ['-'] + SlotName(slot);
    SplitConcat(x, SlotName(slot), '-');
    assert SlotName(slot) == SlotDate(slot) + ['-'] + SlotTime(slot);
    SplitPrefix(SlotDate(slot), SlotTime(slot), '-');
    SplitWhole(SlotTime(slot), '-');
  }

  lemma SameTail(x: string, a: nat, y: string, b: nat)
    requires x + "-" + SlotName(a) == y + "-" + SlotName(b)
    ensures x == y && a == b
  {
    hide SlotDate, SlotTime, Split;
    LastTwoParts(x, a);
    LastTwoParts(y, b);
    var parts := Split(x + "-" + SlotName(a), '-');
    assert parts[|parts| - 2] == SlotDate(a) == SlotDate(b) && parts[|parts| - 1] == SlotTime(a) == SlotTime(b);
    SlotNameInjective(a, b);
    SplitEqual(x + "-", SlotName(a), y + "-", SlotName(b));
    SplitEqual(x, "-", y, "-");
  }

  lemma SameNamespace(m: string, x: string, n: string, y: string)
    requires '/' !in m && '/' !in n && m + "/" + x == n + "/" + y
    ensures m == n && x == y
  {
    hide Split;
    assert m + "/" + x == m + ['/'] + x && n + "/" + y == n + ['/'] + y;
    SplitPrefix(m, x, '/');
    SplitPrefix(n, y, '/');
    var parts := Split(m + "/" + x, '/');
    assert parts[0] == m && parts[0] == n;
    SplitEqual(m + "/", x, n + "/", y);
  }

  /** A run key stands for one namespace, one slot and one shortened schedule name: it never serves two slots,
      and two schedules only if their shortened names agree. */
  lemma RunKeyIff(m: string, x: string, a: nat, n: string, y: string, b: nat, lower: string -> string)
    requires '/' !in m && '/' !in n
    ensures RunKey(m, x, a, lower) == RunKey(n, y, b, lower) <==> m == n && Base(x, lower) == Base(y, lower) && a == b
  {
    hide Base, SlotName;
    if RunKey(m, x, a, lower) == RunKey(n, y, b, lower) {
      SameNamespace(m, ScheduledTaskName(x, a, lower), n, ScheduledTaskName(y, b, lower));
      SameTail(Base(x, lower), a, Base(y, lower), b);
    }
  }

  /** The texts differ at most in the characters that are not kept. */
  predicate SameButPunctuation(s: string, t: string) {
    |s| == |t| && forall i :: 0 <= i < |s| && (Plain(s[i]) || Plain(t[i])) ==> s[i] == t[i]
  }

  lemma {:induction false} DashedSame(s: string, t: string, dash: bool)
    requires SameButPunctuation(s, t)
    ensures Dashed(s, dash) == Dashed(t, dash)
  {
    hide Plain;
    if s != "" {
      DashedSame(s[1..], t[1..], false);
      DashedSame(s[1..], t[1..], true);
    }
  }

  /** Such names need not be long: any two that differ only in punctuation, once trimmed and lowered, agree. */
  lemma PunctuationShared(x: string, y: string, lower: string -> string)
    requires SameButPunctuation(lower(TrimSpace(x)), lower(TrimSpace(y)))
    ensures Base(x, lower) == Base(y, lower)
  {
    hide TrimSpace, TrimDashes, Dashed;
    DashedSame(lower(TrimSpace(x)), lower(TrimSpace(y)), false);
  }

  lemma PunctuationExample()
    ensures Base("a.b", s => s) == Base("a-b", s => s)
  {
    hide IsSpace, TrimSpace, Base;
    LettersNotBlank();
    TrimSpaceTrimmed("a.b");
    TrimSpaceTrimmed("a-b");
    PunctuationShared("a.b", "a-b", s => s);
  }

  /** A name of kept characters and single dashes between them. */
  predicate Neat(s: string) {
    && s != "" && Plain(s[0]) && Plain(s[|s| - 1])
    && (forall i :: 0 <= i < |s| ==> Plain(s[i]) || s[i] == '-')
    && (forall i :: 0 <= i < |s| - 1 ==> Plain(s[i]) || Plain(s[i + 1]))
  }

  /** Such text stays as it is. */
  lemma {:induction false} DashedNeat(s: string, dash: bool)
    requires forall i :: 0 <= i < |s| ==> Plain(s[i]) || s[i] == '-'
    requires forall i :: 0 <= i < |s| - 1 ==> Plain(s[i]) || Plain(s[i + 1])
    requires dash && s != "" ==> Plain(s[0])
    ensures Dashed(s, dash) == s
  {
    hide Plain;
    if s != "" {
      DashedNeat(s[1..], !Plain(s[0]));
      assert s == [s[0]] + s[1..];
    }
  }

  lemma DashNotPlain()
    ensures !Plain('-')
  {
  }

  /** A neat name of at most 40 characters is its own shortened name; a longer one is cut after 40 characters, or
      after 39 where the fortieth is a dash. */
  lemma NeatBase(x: string, lower: string -> string)
    requires Neat(lower(TrimSpace(x)))
    ensures var s := lower(TrimSpace(x));
            Base(x, lower) == if |s| <= 40 then s else if s[39] == '-' then s[..39] else s[..40]
  {
    hide TrimSpace, Plain;
    var s := lower(TrimSpace(x));
    DashNotPlain();
    DashedNeat(s, false);
    assert TrimDashes(s) == s;
    if |s| > 40 {
      var cut := s[..40];
      assert cut[0] == s[0];
      if s[39] == '-' {
        assert cut[..39] == s[..39];
        assert !Plain(s[38 + 1]);
        assert Plain(s[38]);
        assert s[..39][0] == s[0] && s[..39][38] == s[38];
        assert TrimDashes(s[..39]) == s[..39];
      }
    }
  }

  /** A name without any kept character becomes "schedule". */
  lemma {:induction false} NothingKept(s: string, dash: bool)
    requires forall i :: 0 <= i < |s| ==> !Plain(s[i])
    ensures Dashed(s, dash) == if s == "" || dash then "" else "-"
  {
    hide Plain;
    if s != "" {
      NothingKept(s[1..], true);
    }
  }

  lemma BlankBase(x: string, lower: string -> string)
    requires forall i :: 0 <= i < |lower(TrimSpace(x))| ==> !Plain(lower(TrimSpace(x))[i])
    ensures Base(x, lower) == "schedule"
  {
    hide TrimSpace, Plain;
    NothingKept(lower(TrimSpace(x)), false);
    assert "-"[1..] == "" && TrimDashes("") == "";
  }

  /** Two schedules with different neat names of at most 40 characters never share a run key. */
  lemma NeatNamesDiffer(m: string, x: string, a: nat, n: string, y: string, b: nat, lower: string -> string)
    requires '/' !in m && '/' !in n && Neat(lower(TrimSpace(x))) && Neat(lower(TrimSpace(y)))
    requires |lower(TrimSpace(x))| <= 40 && |lower(TrimSpace(y))| <= 40
    ensures RunKey(m, x, a, lower) == RunKey(n, y, b, lower) <==> m == n && lower(TrimSpace(x)) == lower(TrimSpace(y)) && a == b
  {
    hide TrimSpace, Neat, RunKey, Base;
    NeatBase(x, lower);
    NeatBase(y, lower);
    RunKeyIff(m, x, a, n, y, b, lower);
  }

  /** And the key is namespace, name, date and time, as in ns/nightly-20260316-0200. */
  lemma KeyReads(m: string, x: string, d: Date, h: nat, min: nat, lower: string -> string)
    requires Neat(lower(TrimSpace(x))) && |lower(TrimSpace(x))| <= 40
    requires ValidDate(d) && 1 <= d.year <= 9999 && h < 24 && min < 60
    ensures MinuteOf(d, h, min) >= 0
    ensures exists slot :: ReadsAs(slot, d, h, min) && RunKey(m, x, MinuteOf(d, h, min), lower) == m + "/" + lower(TrimSpace(x)) + "-" + slot
  {
    hide TrimSpace, Neat, Base, SlotName, ReadsAs, DayNumber;
    NeatBase(x, lower);
    DateNotNegative(d);
    var name := SlotName(MinuteOf(d, h, min));
    SlotReads(d, h, min);
    assert RunKey(m, x, MinuteOf(d, h, min), lower) == m + "/" + lower(TrimSpace(x)) + "-" + name;
  }

  /** Four digits of year, two each of month and day, a dash, two digits each of hour and minute. */
  predicate ReadsAs(slot: string, d: Date, h: nat, min: nat) {
    && |slot| == 13 && slot[8] == '-'
    && AllDigits(slot[..4]) && AllDigits(slot[4..6]) && AllDigits(slot[6..8]) && AllDigits(slot[9..11]) && AllDigits(slot[11..])
    && DigitsValue(slot[..4]) == d.year && DigitsValue(slot[4..6]) == d.month && DigitsValue(slot[6..8]) == d.day
    && DigitsValue(slot[9..11]) == h && DigitsValue(slot[11..]) == min
  }

  lemma DateNotNegative(d: Date)
    requires ValidDate(d) && d.year >= 1
    ensures DayNumber(d) >= 0
  {
    hide BeforeYear, BeforeMonth;
    FirstDay();
    WithinYear(d);
    YearsOrdered(1, d.year);
  }

  lemma YearFour(y: nat)
    requires y <= 9999
    ensures |PadYear(y)| == 4 && AllDigits(PadYear(y)) && DigitsValue(PadYear(y)) == y
  {
    DecimalShort(y);
    hide Decimal, DigitsValue;
    ZerosShort(Decimal(y));
  }

  lemma {:induction false} ZerosShort(s: string)
    requires AllDigits(s) && |s| <= 4
    ensures |Zeros(s)| == 4
    decreases 4 - |s|
  {
    if |s| < 4 {
      ZeroFirst(s);
      ZerosShort("0" + s);
    }
  }

  lemma DecimalShort(y: nat)
    requires y <= 9999
    ensures |Decimal(y)| <= 4
  {
    assert y < 10 ==> |Decimal(y)| == 1;
    assert y / 10 < 10 ==> |Decimal(y / 10)| == 1;
    assert y / 10 / 10 < 10 ==> |Decimal(y / 10 / 10)| == 1;
    assert y / 10 / 10 / 10 < 10;
    assert |Decimal(y / 10 / 10 / 10)| == 1;
  }

  lemma Pad2Value(n: nat)
    requires n < 100
    ensures DigitsValue(Pad2(n)) == n
  {
    var s := Pad2(n);
    assert s[..1] == [Digit(n / 10)] && s[..1][..0] == "";
    assert DigitsValue(s[..1]) == n / 10;
  }

  /** A slot's name reads as its date and time. */
  lemma SlotReads(d: Date, h: nat, min: nat)
    requires ValidDate(d) && 1 <= d.year <= 9999 && h < 24 && min < 60 && MinuteOf(d, h, min) >= 0
    ensures ReadsAs(SlotName(MinuteOf(d, h, min)), d, h, min)
  {
    hide DateOf, DayNumber, PadYear, Pad2, DigitsValue;
    var slot := MinuteOf(d, h, min);
    DateRoundTrip(d);
    TimeOfDay(DayNumber(d), h, min);
    DayInMonth(d);
    YearFour(d.year);
    Pad2Value(d.month);
    Pad2Value(d.day);
    Pad2Value(h);
    Pad2Value(min);
    var y, mo, da, ho, mi := PadYear(d.year), Pad2(d.month), Pad2(d.day), Pad2(h), Pad2(min);
    var name := SlotName(slot);
    assert name == y + mo + da + "-" + (ho + mi);
    assert name[..4] == y && name[4..6] == mo && name[6..8] == da && name[9..11] == ho && name[11..] == mi;
  }

  lemma LettersNotBlank()
    ensures !IsSpace('a') && !IsSpace('b')
  {
  }

  // ---------------------------------------------------------------- the controller

  /** A schedule; it has no expression if its spec does not parse. `runNamespace` is where its runs go. */
  datatype Sched = Sched(namespace: string, name: string, runNamespace: string, expr: Option<Expression>, suspend: bool,
                         forbid: bool, deadlineSeconds: int)

  /** The labels of a run task, or those of a task that is no run of a schedule. */
  datatype TaskMark = RunOf(name: string, namespace: string, slot: nat) | OtherMark

  datatype Phase = Pending | Running | WaitingApproval | Succeeded | Failed | DeadLetter

  datatype Task = Task(mark: TaskMark, phase: Phase)

  /** Names compare without case and blanks through `canon`. */
  datatype World = World(scheds: map<nat, Sched>, lower: string -> string, canon: string -> string)

  /** A run handed to a schedule's slot: the key, whether the task was created for it, and the time of its
      tick. */
  datatype Served = Served(id: nat, slot: nat, key: string, created: bool, at: int)

  /** The last schedule time in a schedule's status: none, an instant, or text that is no time. */
  datatype LastTime = Unset | At(time: int) | Unreadable

  /** How far a tick has come: before it looks up its run task, before it writes it, or before it stores the
      status. */
  datatype Stage = Looking | Writing | Noting

  datatype Busy = Busy(id: nat, slot: nat, now: int, stage: Stage)

  /** The tasks, the stored last schedule times, the history of runs, and the tick under way; the controller
      works on one at a time. */
  datatype State = State(tasks: map<string, Task>, last: map<nat, LastTime>, served: seq<Served>, busy: Option<Busy>)

  /** The controller's steps: it starts a tick of a schedule at some clock reading, where `slot` is the latest
      slot then; it looks up the template and the run task; it writes the run task; it stores the status; or it
      stops. The flags say which of its store calls succeed. Others delete tasks, write them over whatever is
      there, move them on, and edit a schedule's last time. */
  datatype Step =
    | Tick(id: nat, now: int, slot: Option<nat>, list: bool)
    | Look(template: bool, lookup: bool)
    | Write(write: bool)
    | Note(status: bool)
    | Stop
    | Delete(key: string)
    | Put(key: string, task: Task)
    | Progress(key: string, phase: Phase)
    | Patch(sched: nat, time: LastTime)

  predicate ByOthers(step: Step) {
    step.Delete? || step.Put? || step.Progress? || step.Patch?
  }

  ghost predicate AllByOthers(steps: seq<Step>) {
    forall i :: 0 <= i < |steps| ==> ByOthers(steps[i])
  }

  ghost predicate IsLatest(expr: Option<Expression>, now: int, slot: Option<nat>) {
    match expr
    case None => slot.None?
    case Some(e) => Parsed(e) && IsPrev(e, now, if slot.Some? then Some(slot.value as int) else None)
  }

  ghost predicate ValidStep(w: World, step: Step) {
    step.Tick? ==> step.id in w.scheds && (w.scheds[step.id].suspend || IsLatest(w.scheds[step.id].expr, step.now, step.slot))
  }

  ghost predicate ValidSteps(w: World, steps: seq<Step>) {
    forall i :: 0 <= i < |steps| ==> ValidStep(w, steps[i])
  }

  function Deadline(sched: Sched): int {
    (if sched.deadlineSeconds <= 0 then 300 else sched.deadlineSeconds) * 1_000_000_000
  }

  function LastOf(s: State, id: nat): LastTime {
    if id in s.last then s.last[id] else Unset
  }

  predicate Due(last: LastTime, slot: Option<nat>) {
    slot.Some? && (last.Unset? || (last.At? && slot.value * MINUTE > last.time))
  }

  predicate WithinDeadline(sched: Sched, slot: nat, now: int) {
    now - slot * MINUTE <= Deadline(sched)
  }

  /** The task is labelled as a run of the schedule. */
  predicate RunBy(w: World, sched: Sched, mark: TaskMark) {
    mark.RunOf? && w.canon(mark.name) == w.canon(sched.name) && w.canon(mark.namespace) == w.canon(sched.namespace)
  }

  predicate LabelsMatch(w: World, sched: Sched, slot: nat, mark: TaskMark) {
    RunBy(w, sched, mark) && mark.slot == slot
  }

  predicate Active(p: Phase) {
    p.Pending? || p.Running?
  }

  predicate ActiveRun(w: World, sched: Sched, t: Task) {
    RunBy(w, sched, t.mark) && Active(t.phase)
  }

  /** The concurrency policy holds a run back; without a task list it sees no active run. */
  predicate Held(w: World, tasks: map<string, Task>, sched: Sched, list: bool) {
    sched.forbid && list && exists k :: k in tasks && ActiveRun(w, sched, tasks[k])
  }

  function KeyOf(w: World, id: nat, slot: nat): string
    requires id in w.scheds
  {
    RunKey(w.scheds[id].runNamespace, w.scheds[id].name, slot, w.lower)
  }

  /** The run task a tick writes. */
  function NewTask(w: World, id: nat, slot: nat): Task
    requires id in w.scheds
  {
    Task(RunOf(w.scheds[id].name, w.scheds[id].namespace, slot), Pending)
  }

  /** The tick under way is for a known schedule and at this stage. */
  predicate BusyAt(w: World, s: State, stage: Stage) {
    s.busy.Some? && s.busy.value.id in w.scheds && s.busy.value.stage == stage
  }

  function Noted(s: State): State
    requires s.busy.Some?
  {
    s.(busy := Some(s.busy.value.(stage := Noting)))
  }

  function NextTick(w: World, s: State, id: nat, now: int, slot: Option<nat>, list: bool): State {
    if s.busy.Some? || id !in w.scheds || w.scheds[id].suspend || !Due(LastOf(s, id), slot) then s
    else
      var go := WithinDeadline(w.scheds[id], slot.value, now) && !Held(w, s.tasks, w.scheds[id], list);
      s.(busy := Some(Busy(id, slot.value, now, if go then Looking else Noting)))
  }

  /** A lookup that fails counts as finding nothing. */
  function NextLook(w: World, s: State, template: bool, lookup: bool): State {
    if !BusyAt(w, s, Looking) then s
    else
      var b := s.busy.value;
      var key := KeyOf(w, b.id, b.slot);
      if !template then Noted(s)
      else if lookup && key in s.tasks then
        if LabelsMatch(w, w.scheds[b.id], b.slot, s.tasks[key].mark)
        then Noted(s).(served := s.served + [Served(b.id, b.slot, key, false, b.now)])
        else Noted(s)
      else s.(busy := Some(b.(stage := Writing)))
  }

  function NextWrite(w: World, s: State, write: bool): State {
    if !BusyAt(w, s, Writing) then s
    else if !write then Noted(s)
    else
      var b := s.busy.value;
      var key := KeyOf(w, b.id, b.slot);
      Noted(s).(tasks := s.tasks[key := NewTask(w, b.id, b.slot)], served := s.served + [Served(b.id, b.slot, key, true, b.now)])
  }

  function NextNote(w: World, s: State, status: bool): State {
    if !BusyAt(w, s, Noting) then s
    else if status then s.(last := s.last[s.busy.value.id := At(s.busy.value.slot * MINUTE)], busy := None)
    else s.(busy := None)
  }

  function Next(w: World, s: State, step: Step): State {
    match step
    case Tick(id, now, slot, list) => NextTick(w, s, id, now, slot, list)
    case Look(template, lookup) => NextLook(w, s, template, lookup)
    case Write(write) => NextWrite(w, s, write)
    case Note(status) => NextNote(w, s, status)
    case Stop => s.(busy := None)
    case Delete(key) => s.(tasks := s.tasks - {key})
    case Put(key, task) => s.(tasks := s.tasks[key := task])
    case Progress(key, phase) => if key in s.tasks then s.(tasks := s.tasks[key := s.tasks[key].(phase := phase)]) else s
    case Patch(id, time) => s.(last := s.last[id := time])
  }

  function Run(w: World, s: State, steps: seq<Step>): State {
    if steps == [] then s else Next(w, Run(w, s, steps[..|steps| - 1]), steps[|steps| - 1])
  }

  const START := State(map[], map[], [], None)

  lemma {:induction false} RunConcat(w: World, s: State, a: seq<Step>, b: seq<Step>)
    ensures Run(w, s, a + b) == Run(w, Run(w, s, a), b)
  {
    hide Next;
    if b == [] {
      assert a + b == a;
    } else {
      RunConcat(w, s, a, b[..|b| - 1]);
      assert (a + b)[..|a + b| - 1] == a + b[..|b| - 1];
    }
  }

  // ---------------------------------------------------------------- what a tick serves

  /** The tick is for a known schedule and was for the latest slot, and unless it only stores the status,
      within its deadline. */
  ghost predicate Rightful(w: World, b: Busy) {
    && b.id in w.scheds && IsLatest(w.scheds[b.id].expr, b.now, Some(b.slot))
    && (b.stage != Noting ==> WithinDeadline(w.scheds[b.id], b.slot, b.now))
  }

  /** A served run has its own key and was for the latest slot and within its deadline. */
  ghost predicate Justified(w: World, r: Served) {
    && r.id in w.scheds && IsLatest(w.scheds[r.id].expr, r.at, Some(r.slot))
    && r.key == KeyOf(w, r.id, r.slot) && WithinDeadline(w.scheds[r.id], r.slot, r.at)
  }

  /** The run's task is there and labelled for its schedule and slot. */
  predicate Owned(w: World, tasks: map<string, Task>, r: Served) {
    r.id in w.scheds && r.key in tasks && LabelsMatch(w, w.scheds[r.id], r.slot, tasks[r.key].mark)
  }

  /** Only the lookup and the write of a tick serve a run, at most one, its own, and leave its task there with
      its labels. The lookup serves a task it found so labelled; the write puts a new one under the key. */
  lemma StepServes(w: World, s: State, step: Step)
    ensures var t := Next(w, s, step);
            t.served == s.served
            || (&& s.busy.Some? && |t.served| == |s.served| + 1 && t.served == s.served + [t.served[|s.served|]]
                && var r, b := t.served[|s.served|], s.busy.value;
                   && b.id in w.scheds && b.stage != Noting && t.busy == Some(b.(stage := Noting))
                   && r == Served(b.id, b.slot, KeyOf(w, b.id, b.slot), step.Write?, b.now) && Owned(w, t.tasks, r)
                   && (step.Look? || step.Write?)
                   && (step.Look? ==> Owned(w, s.tasks, r) && t.tasks == s.tasks)
                   && (step.Write? ==> t.tasks == s.tasks[r.key := Task(RunOf(w.scheds[b.id].name, w.scheds[b.id].namespace, b.slot), Pending)]))
  {
    hide RunKey, Held;
  }

  /** Exactly when a tick goes on to its run: the schedule is not suspended, the slot is after the last one, not
      more than the deadline ago, by default five minutes, and under Forbid no pending or running task that is
      listed carries the schedule's labels. */
  lemma GoesOnIff(w: World, s: State, id: nat, now: int, slot: nat, list: bool)
    requires s.busy.None? && id in w.scheds
    ensures var x := w.scheds[id];
            BusyAt(w, Next(w, s, Tick(id, now, Some(slot), list)), Looking)
            <==> && !x.suspend
                 && (id in s.last ==> !s.last[id].Unreadable? && (s.last[id].At? ==> s.last[id].time < slot * 60_000_000_000))
                 && now - slot * 60_000_000_000 <= (if x.deadlineSeconds <= 0 then 300 else x.deadlineSeconds) * 1_000_000_000
                 && (x.forbid && list ==>
                       forall k, name, namespace, n, phase ::
                         k in s.tasks && s.tasks[k] == Task(RunOf(name, namespace, n), phase) && (phase == Pending || phase == Running) ==>
                           w.canon(name) != w.canon(x.name) || w.canon(namespace) != w.canon(x.namespace))
  {
    var x := w.scheds[id];
    forall k | k in s.tasks
      ensures ActiveRun(w, x, s.tasks[k])
         <==> && s.tasks[k].mark.RunOf? && (s.tasks[k].phase == Pending || s.tasks[k].phase == Running)
              && w.canon(s.tasks[k].mark.name) == w.canon(x.name) && w.canon(s.tasks[k].mark.namespace) == w.canon(x.namespace)
    {
    }
    if exists k :: k in s.tasks && ActiveRun(w, x, s.tasks[k]) {
      var k :| k in s.tasks && ActiveRun(w, x, s.tasks[k]);
      var mark := s.tasks[k].mark;
      assert s.tasks[k] == Task(RunOf(mark.name, mark.namespace, mark.slot), s.tasks[k].phase);
    }
  }

  ghost predicate Inv(w: World, s: State) {
    (forall i :: 0 <= i < |s.served| ==> Justified(w, s.served[i])) && (s.busy.Some? ==> Rightful(w, s.busy.value))
  }

  lemma BusyRightful(w: World, s: State, step: Step)
    requires ValidStep(w, step) && (s.busy.Some? ==> Rightful(w, s.busy.value))
    ensures var t := Next(w, s, step); t.busy.Some? ==> Rightful(w, t.busy.value)
  {
    hide RunKey, Held, LabelsMatch, IsPrev;
  }

  lemma NextInv(w: World, s: State, step: Step)
    requires Inv(w, s) && ValidStep(w, step)
    ensures Inv(w, Next(w, s, step))
  {
    hide Next, IsLatest, WithinDeadline, LabelsMatch, RunKey, KeyOf;
    BusyRightful(w, s, step);
    StepServes(w, s, step);
  }

  lemma {:induction false} Reachable(w: World, steps: seq<Step>)
    requires ValidSteps(w, steps)
    ensures Inv(w, Run(w, START, steps))
  {
    hide Next, Justified, Rightful, ValidStep;
    if steps != [] {
      Reachable(w, steps[..|steps| - 1]);
      assert ValidStep(w, steps[|steps| - 1]);
      NextInv(w, Run(w, START, steps[..|steps| - 1]), steps[|steps| - 1]);
    }
  }

  /** Over any run, with clocks that may go back, store calls that may fail, stops anywhere and tasks that others
      change: a run is served only for the slot that was the latest at its tick and within its deadline. */
  lemma OnlyLatestInTime(w: World, steps: seq<Step>, i: nat)
    requires ValidSteps(w, steps) && i < |Run(w, START, steps).served|
    ensures Justified(w, Run(w, START, steps).served[i])
  {
    hide Run, Justified, ValidSteps;
    Reachable(w, steps);
  }

  ghost predicate ProperWorld(w: World) {
    forall id :: id in w.scheds ==> '/' !in w.scheds[id].runNamespace
  }

  /** Each schedule and slot has one key. A key never serves two slots, and two schedules only if they share
      run namespace and shortened name. */
  lemma KeyServesOneSlot(w: World, steps: seq<Step>, i: nat, j: nat)
    requires ProperWorld(w) && ValidSteps(w, steps)
    requires i < |Run(w, START, steps).served| && j < |Run(w, START, steps).served|
    ensures var a, b := Run(w, START, steps).served[i], Run(w, START, steps).served[j];
            && a.id in w.scheds && b.id in w.scheds
            && (a.key == b.key <==> a.slot == b.slot && w.scheds[a.id].runNamespace == w.scheds[b.id].runNamespace
                                    && Base(w.scheds[a.id].name, w.lower) == Base(w.scheds[b.id].name, w.lower))
  {
    hide Run, RunKey, Base, IsLatest, WithinDeadline, ValidSteps;
    OnlyLatestInTime(w, steps, i);
    OnlyLatestInTime(w, steps, j);
    var a, b := Run(w, START, steps).served[i], Run(w, START, steps).served[j];
    var x, y := w.scheds[a.id], w.scheds[b.id];
    RunKeyIff(x.runNamespace, x.name, a.slot, y.runNamespace, y.name, b.slot, w.lower);
  }

  // ---------------------------------------------------------------- a key and its task

  /** The tick under way is about to write this key. */
  predicate WritesKey(w: World, s: State, key: string) {
    BusyAt(w, s, Writing) && KeyOf(w, s.busy.value.id, s.busy.value.slot) == key
  }

  /** The step deletes or overwrites the key's task, or is a failed lookup of this very key. */
  predicate Disturbs(w: World, s: State, step: Step, key: string) {
    match step
    case Delete(k) => k == key
    case Put(k, _) => k == key
    case Look(_, lookup) => !lookup && BusyAt(w, s, Looking) && KeyOf(w, s.busy.value.id, s.busy.value.slot) == key
    case _ => false
  }

  /** No step of a run from `s` disturbs the key. */
  ghost predicate LeftAlone(w: World, s: State, steps: seq<Step>, key: string) {
    forall i :: 0 <= i < |steps| ==> !Disturbs(w, Run(w, s, steps[..i]), steps[i], key)
  }

  lemma LeftAloneInit(w: World, s: State, steps: seq<Step>, key: string)
    requires LeftAlone(w, s, steps, key) && steps != []
    ensures LeftAlone(w, s, steps[..|steps| - 1], key)
    ensures !Disturbs(w, Run(w, s, steps[..|steps| - 1]), steps[|steps| - 1], key)
  {
    hide Disturbs, Run;
    var init := steps[..|steps| - 1];
    forall i | 0 <= i < |init| ensures !Disturbs(w, Run(w, s, init[..i]), init[i], key) {
      assert init[..i] == steps[..i];
    }
  }

  lemma StepKeepsLabels(w: World, s: State, step: Step, key: string)
    requires key in s.tasks && !WritesKey(w, s, key) && !Disturbs(w, s, step, key)
    ensures var t := Next(w, s, step); key in t.tasks && t.tasks[key].mark == s.tasks[key].mark && !WritesKey(w, t, key)
  {
    hide RunKey, Held, LabelsMatch, WithinDeadline;
  }

  /** The served runs from position `from` on that have this key found its task with these labels. */
  ghost predicate FoundLabelled(w: World, s: State, from: nat, key: string, mark: TaskMark) {
    forall i :: from <= i < |s.served| && s.served[i].key == key ==>
      !s.served[i].created && s.served[i].id in w.scheds && LabelsMatch(w, w.scheds[s.served[i].id], s.served[i].slot, mark)
  }

  lemma StepFinds(w: World, s: State, step: Step, from: nat, key: string)
    requires key in s.tasks && !WritesKey(w, s, key) && FoundLabelled(w, s, from, key, s.tasks[key].mark)
    ensures FoundLabelled(w, Next(w, s, step), from, key, s.tasks[key].mark)
  {
    hide Next, LabelsMatch, RunKey, KeyOf;
    StepServes(w, s, step);
    WriteServes(w, s, step);
  }

  /** A write serves only the key it is about to write. */
  lemma WriteServes(w: World, s: State, step: Step)
    ensures step.Write? && Next(w, s, step).served != s.served ==> BusyAt(w, s, Writing)
  {
  }

  lemma {:induction false} LeftAloneKeeps(w: World, s: State, more: seq<Step>, key: string)
    requires key in s.tasks && !WritesKey(w, s, key) && LeftAlone(w, s, more, key)
    ensures var t := Run(w, s, more);
            && key in t.tasks && t.tasks[key].mark == s.tasks[key].mark && !WritesKey(w, t, key)
            && FoundLabelled(w, t, |s.served|, key, s.tasks[key].mark)
  {
    hide Next, LabelsMatch, Disturbs, WritesKey;
    if more != [] {
      var init, step := more[..|more| - 1], more[|more| - 1];
      LeftAloneInit(w, s, more, key);
      LeftAloneKeeps(w, s, init, key);
      StepKeepsLabels(w, Run(w, s, init), step, key);
      StepFinds(w, Run(w, s, init), step, |s.served|, key);
    }
  }

  /** The run's last step served a run, the last of its history. */
  predicate EndsServing(w: World, steps: seq<Step>, r: Served) {
    steps != [] && Run(w, START, steps).served == Run(w, START, steps[..|steps| - 1]).served + [r]
  }

  /** Right after a run is served its task carries its labels, and its tick is about to store the status. */
  lemma JustServed(w: World, steps: seq<Step>, r: Served)
    requires EndsServing(w, steps, r)
    ensures var s := Run(w, START, steps);
            Owned(w, s.tasks, r) && BusyAt(w, s, Noting) && s.busy.value.id == r.id && s.busy.value.slot == r.slot
  {
    hide Next, LabelsMatch, RunKey;
    var before, s := Run(w, START, steps[..|steps| - 1]), Run(w, START, steps);
    StepServes(w, before, steps[|steps| - 1]);
    assert s.served[|before.served|] == r;
  }

  /** From a served run on, as long as nobody else deletes or overwrites its task and no lookup of it fails, its
      key serves no other slot and no schedule of another name, and its task is not created again. */
  lemma KeyServesOneSchedule(w: World, steps: seq<Step>, more: seq<Step>, r: Served, j: nat)
    requires EndsServing(w, steps, r) && LeftAlone(w, Run(w, START, steps), more, r.key)
    requires var t := Run(w, START, steps + more); |Run(w, START, steps).served| <= j < |t.served| && t.served[j].key == r.key
    ensures var q := Run(w, START, steps + more).served[j];
            && !q.created && q.slot == r.slot && q.id in w.scheds && r.id in w.scheds
            && w.canon(w.scheds[q.id].name) == w.canon(w.scheds[r.id].name)
            && w.canon(w.scheds[q.id].namespace) == w.canon(w.scheds[r.id].namespace)
  {
    hide Run, LeftAlone;
    JustServed(w, steps, r);
    LeftAloneKeeps(w, Run(w, START, steps), more, r.key);
    RunConcat(w, START, steps, more);
  }

  // ---------------------------------------------------------------- what a write replaces

  /** The last of others' steps on the key puts a task there. */
  predicate PutLast(steps: seq<Step>, key: string) {
    steps != []
    && var last := steps[|steps| - 1];
       ((last.Put? && last.key == key) || (!(last.Delete? && last.key == key) && PutLast(steps[..|steps| - 1], key)))
  }

  lemma {:induction false} OthersPut(w: World, s: State, others: seq<Step>, key: string)
    requires AllByOthers(others) && key !in s.tasks
    ensures key in Run(w, s, others).tasks <==> PutLast(others, key)
  {
    if others != [] {
      OthersPut(w, s, others[..|others| - 1], key);
      assert ByOthers(others[|others| - 1]);
    }
  }

  /** Between a lookup that works and the write that follows it others may act. The write replaces a task if and
      only if the last thing they did under the key was to put one there. */
  lemma ReplacesIff(w: World, s: State, others: seq<Step>)
    requires BusyAt(w, s, Looking) && BusyAt(w, Next(w, s, Look(true, true)), Writing) && AllByOthers(others)
    ensures var key := KeyOf(w, s.busy.value.id, s.busy.value.slot);
            key in Run(w, Next(w, s, Look(true, true)), others).tasks <==> PutLast(others, key)
  {
    hide Run, RunKey, LabelsMatch;
    OthersPut(w, Next(w, s, Look(true, true)), others, KeyOf(w, s.busy.value.id, s.busy.value.slot));
  }

  // ---------------------------------------------------------------- a tick left alone

  lemma Then(w: World, s: State, steps: seq<Step>, step: Step) returns (more: seq<Step>)
    ensures more == steps + [step] && Run(w, s, more) == Next(w, Run(w, s, steps), step)
  {
    more := steps + [step];
    assert more[..|steps|] == steps;
  }

  lemma NoSteps(w: World, s: State)
    ensures Run(w, s, []) == s
  {
  }

  /** A schedule at a moment when its slot is due. */
  ghost predicate Ready(w: World, s: State, id: nat, now: int, slot: nat) {
    && s.busy.None? && id in w.scheds && !w.scheds[id].suspend && IsLatest(w.scheds[id].expr, now, Some(slot))
    && Due(LastOf(s, id), Some(slot)) && WithinDeadline(w.scheds[id], slot, now) && !Held(w, s.tasks, w.scheds[id], true)
  }

  /** A tick that finds no task, left alone up to its write. */
  lemma ServeAlone(w: World, steps: seq<Step>, id: nat, now: int, slot: nat) returns (more: seq<Step>)
    requires ValidSteps(w, steps) && Ready(w, Run(w, START, steps), id, now, slot) && KeyOf(w, id, slot) !in Run(w, START, steps).tasks
    ensures ValidSteps(w, more)
    ensures var s, key := Run(w, START, steps), KeyOf(w, id, slot);
            Run(w, START, more) == s.(tasks := s.tasks[key := NewTask(w, id, slot)], busy := Some(Busy(id, slot, now, Noting)),
                                      served := s.served + [Served(id, slot, key, true, now)])
  {
    hide Run, RunKey, Held, IsLatest, WithinDeadline, Due;
    var s := Run(w, START, steps);
    more := Then(w, START, steps, Tick(id, now, Some(slot), true));
    assert Run(w, START, more) == s.(busy := Some(Busy(id, slot, now, Looking)));
    more := Then(w, START, more, Look(true, true));
    assert Run(w, START, more) == s.(busy := Some(Busy(id, slot, now, Writing)));
    more := Then(w, START, more, Write(true));
  }

  /** The same up to the status write. */
  lemma ServeNoted(w: World, steps: seq<Step>, id: nat, now: int, slot: nat, status: bool) returns (more: seq<Step>)
    requires ValidSteps(w, steps) && Ready(w, Run(w, START, steps), id, now, slot) && KeyOf(w, id, slot) !in Run(w, START, steps).tasks
    ensures ValidSteps(w, more)
    ensures var s, key := Run(w, START, steps), KeyOf(w, id, slot);
            Run(w, START, more) == s.(tasks := s.tasks[key := NewTask(w, id, slot)], served := s.served + [Served(id, slot, key, true, now)],
                                      last := if status then s.last[id := At(slot * MINUTE)] else s.last)
  {
    hide Run, RunKey, Held, IsLatest, WithinDeadline, Due, KeyOf;
    more := ServeAlone(w, steps, id, now, slot);
    more := Then(w, START, more, Note(status));
  }

  /** Once its task is deleted a key can be served again: by the same schedule if its status was not stored, and
      by another one that shares run namespace and shortened name in any case. */
  lemma ServedTwice(w: World, a: nat, b: nat, now: int, slot: nat) returns (steps: seq<Step>)
    requires Ready(w, START, a, now, slot) && Ready(w, START, b, now, slot)
    requires w.scheds[a].runNamespace == w.scheds[b].runNamespace && Base(w.scheds[a].name, w.lower) == Base(w.scheds[b].name, w.lower)
    ensures ValidSteps(w, steps)
    ensures exists key :: Run(w, START, steps).served == [Served(a, slot, key, true, now), Served(b, slot, key, true, now)]
    ensures a != b ==> Run(w, START, steps).last == map[a := At(slot * MINUTE)]
  {
    hide IsLatest, WithinDeadline, Base, SlotName;
    var key := KeyOf(w, a, slot);
    assert key == KeyOf(w, b, slot);
    hide RunKey, Run, KeyOf;
    NoSteps(w, START);
    steps := ServeAlone(w, [], a, now, slot);
    steps := Then(w, START, steps, if a != b then Note(true) else Stop);
    var s1 := Run(w, START, steps);
    assert s1.tasks == map[key := NewTask(w, a, slot)] && s1.served == [Served(a, slot, key, true, now)];
    steps := Then(w, START, steps, Delete(key));
    assert Run(w, START, steps).tasks == map[];
    steps := ServeAlone(w, steps, b, now, slot);
  }

  // ---------------------------------------------------------------- the stored time

  /** No tick of the schedule is under way, or one for a slot behind the stored time. */
  predicate Ahead(s: State, id: nat) {
    s.busy.Some? && s.busy.value.id == id ==> Due(LastOf(s, id), Some(s.busy.value.slot))
  }

  /** Unless somebody else edits it, the stored time of a schedule never goes back, whatever the clock does. */
  lemma LastNeverDecreases(w: World, s: State, step: Step, id: nat)
    requires Ahead(s, id) && !(step.Patch? && step.sched == id)
    ensures Ahead(Next(w, s, step), id)
    ensures var before, after := LastOf(s, id), LastOf(Next(w, s, step), id);
            after == before || (after.At? && (before.At? ==> before.time < after.time))
  {
    hide RunKey, LabelsMatch, WithinDeadline, Held;
  }

  ghost predicate Unedited(steps: seq<Step>, id: nat) {
    forall i :: 0 <= i < |steps| ==> !(steps[i].Patch? && steps[i].sched == id)
  }

  ghost predicate NotServedFrom(s: State, from: nat, id: nat, slot: nat) {
    forall i :: from <= i < |s.served| ==> !(s.served[i].id == id && s.served[i].slot == slot)
  }

  /** The stored time is at or after the slot. */
  predicate Stored(s: State, id: nat, slot: nat) {
    LastOf(s, id).At? && LastOf(s, id).time >= slot * MINUTE
  }

  /** A slot at or before the stored time is settled, run or no run: also one that missed its deadline, was
      held back or was refused is never served in any continuation in which nobody edits the time. */
  lemma {:induction false} StoredIsSettled(w: World, s: State, more: seq<Step>, id: nat, slot: nat)
    requires Stored(s, id, slot) && Ahead(s, id) && Unedited(more, id)
    ensures var t := Run(w, s, more); Stored(t, id, slot) && Ahead(t, id) && NotServedFrom(t, |s.served|, id, slot)
  {
    hide Next, LabelsMatch, RunKey, KeyOf;
    if more != [] {
      var init, step := more[..|more| - 1], more[|more| - 1];
      StoredIsSettled(w, s, init, id, slot);
      LastNeverDecreases(w, Run(w, s, init), step, id);
      StepServes(w, Run(w, s, init), step);
    }
  }

  /** In a run in which nobody edits the schedule's time, its ticks stay ahead of it. */
  lemma {:induction false} AlwaysAhead(w: World, steps: seq<Step>, id: nat)
    requires Unedited(steps, id)
    ensures Ahead(Run(w, START, steps), id)
  {
    hide Next, Ahead;
    if steps == [] {
      assert Ahead(START, id) by { NobodyBusy(id); }
    } else {
      AlwaysAhead(w, steps[..|steps| - 1], id);
      LastNeverDecreases(w, Run(w, START, steps[..|steps| - 1]), steps[|steps| - 1], id);
    }
  }

  lemma NobodyBusy(id: nat)
    ensures Ahead(START, id)
  {
  }

  /** From a served run on: once its status is stored its slot is never served again; and as long as its task is
      left alone it is never created again, stored or not. */
  lemma CreatedOnce(w: World, steps: seq<Step>, others: seq<Step>, more: seq<Step>, r: Served)
    requires EndsServing(w, steps, r) && AllByOthers(others) && Unedited(more, r.id)
    ensures var n, s := |Run(w, START, steps).served|, Run(w, START, steps);
            && NotServedFrom(Run(w, s, others + [Note(true)] + more), n, r.id, r.slot)
            && (LeftAlone(w, s, more, r.key) ==>
                  forall j :: n <= j < |Run(w, s, more).served| && Run(w, s, more).served[j].key == r.key ==> !Run(w, s, more).served[j].created)
  {
    hide Next, LeftAlone, LabelsMatch, RunKey;
    var s := Run(w, START, steps);
    JustServed(w, steps, r);
    OthersKeep(w, s, others);
    var t := Run(w, s, others + [Note(true)]);
    var noted := Then(w, s, others, Note(true));
    NoteStores(w, Run(w, s, others));
    StoredIsSettled(w, t, more, r.id, r.slot);
    RunConcat(w, s, others + [Note(true)], more);
    if LeftAlone(w, s, more, r.key) {
      LeftAloneKeeps(w, s, more, r.key);
    }
  }

  lemma {:induction false} OthersKeep(w: World, s: State, others: seq<Step>)
    requires AllByOthers(others)
    ensures Run(w, s, others).busy == s.busy && Run(w, s, others).served == s.served
  {
    if others != [] {
      OthersKeep(w, s, others[..|others| - 1]);
      assert ByOthers(others[|others| - 1]);
    }
  }

  lemma NoteStores(w: World, s: State)
    requires BusyAt(w, s, Noting)
    ensures var t := Next(w, s, Note(true));
            t.served == s.served && Stored(t, s.busy.value.id, s.busy.value.slot) && forall id :: Ahead(t, id)
  {
  }

  // ---------------------------------------------------------------- the concurrency policy

  ghost predicate AtMostOneActive(w: World, sched: Sched, tasks: map<string, Task>) {
    forall k, l :: k in tasks && l in tasks && ActiveRun(w, sched, tasks[k]) && ActiveRun(w, sched, tasks[l]) ==> k == l
  }

  predicate AnotherActive(w: World, sched: Sched, tasks: map<string, Task>, key: string) {
    exists k :: k in tasks && k != key && ActiveRun(w, sched, tasks[k])
  }

  /** The step makes a run of the schedule active beside another one. */
  predicate Overlaps(w: World, sched: Sched, s: State, step: Step) {
    match step
    case Write(write) =>
      write && BusyAt(w, s, Writing)
      && var b := s.busy.value; ActiveRun(w, sched, NewTask(w, b.id, b.slot)) && AnotherActive(w, sched, s.tasks, KeyOf(w, b.id, b.slot))
    case Put(key, task) => ActiveRun(w, sched, task) && AnotherActive(w, sched, s.tasks, key)
    case Progress(key, phase) =>
      key in s.tasks && ActiveRun(w, sched, s.tasks[key].(phase := phase)) && AnotherActive(w, sched, s.tasks, key)
    case _ => false
  }

  /** Putting one task under a key overlaps exactly if it is an active run beside another one. */
  lemma OnePut(w: World, sched: Sched, tasks: map<string, Task>, key: string, task: Task)
    requires AtMostOneActive(w, sched, tasks)
    ensures !AtMostOneActive(w, sched, tasks[key := task]) <==> ActiveRun(w, sched, task) && AnotherActive(w, sched, tasks, key)
  {
    hide ActiveRun;
    var next := tasks[key := task];
    if ActiveRun(w, sched, task) && AnotherActive(w, sched, tasks, key) {
      var k :| k in tasks && k != key && ActiveRun(w, sched, tasks[k]);
      assert k in next && key in next && ActiveRun(w, sched, next[k]) && ActiveRun(w, sched, next[key]);
    }
  }

  lemma OneDelete(w: World, sched: Sched, tasks: map<string, Task>, key: string)
    requires AtMostOneActive(w, sched, tasks)
    ensures AtMostOneActive(w, sched, tasks - {key})
  {
    hide ActiveRun;
  }

  /** If at most one run of a schedule is active, a step makes it two if and only if it overlaps. */
  lemma OverlapsIff(w: World, sched: Sched, s: State, step: Step)
    requires AtMostOneActive(w, sched, s.tasks)
    ensures !AtMostOneActive(w, sched, Next(w, s, step).tasks) <==> Overlaps(w, sched, s, step)
  {
    hide AtMostOneActive, AnotherActive, ActiveRun, RunKey, Held, LabelsMatch, WithinDeadline, Due;
    match step
    case Write(write) =>
      if write && BusyAt(w, s, Writing) {
        var b := s.busy.value;
        OnePut(w, sched, s.tasks, KeyOf(w, b.id, b.slot), NewTask(w, b.id, b.slot));
      }
    case Put(key, task) => OnePut(w, sched, s.tasks, key, task);
    case Progress(key, phase) =>
      if key in s.tasks {
        OnePut(w, sched, s.tasks, key, s.tasks[key].(phase := phase));
      }
    case Delete(key) => OneDelete(w, sched, s.tasks, key);
    case Tick(_, _, _, _) =>
    case Look(_, _) =>
    case Note(_) =>
    case Stop =>
    case Patch(_, _) =>
  }

  ghost predicate AlwaysOneActive(w: World, sched: Sched, steps: seq<Step>) {
    forall i :: 0 <= i <= |steps| ==> AtMostOneActive(w, sched, Run(w, START, steps[..i]).tasks)
  }

  ghost predicate NeverOverlaps(w: World, sched: Sched, steps: seq<Step>) {
    forall i :: 0 <= i < |steps| ==> !Overlaps(w, sched, Run(w, START, steps[..i]), steps[i])
  }

  /** Over any run: at most one run of the schedule is active all the time if and only if no step overlaps. */
  lemma {:induction false} OneActiveIff(w: World, sched: Sched, steps: seq<Step>)
    ensures AlwaysOneActive(w, sched, steps) <==> NeverOverlaps(w, sched, steps)
  {
    hide Next, Overlaps, AtMostOneActive;
    if steps == [] {
      NoneActive(w, sched);
    } else {
      var init := steps[..|steps| - 1];
      OneActiveIff(w, sched, init);
      LastStep(w, sched, steps);
      hide AlwaysOneActive, NeverOverlaps;
      if AlwaysOneActive(w, sched, init) {
        OverlapsIff(w, sched, Run(w, START, init), steps[|init|]);
      }
    }
  }

  lemma LastStep(w: World, sched: Sched, steps: seq<Step>)
    requires steps != []
    ensures var init := steps[..|steps| - 1];
            && (AlwaysOneActive(w, sched, init) ==> AtMostOneActive(w, sched, Run(w, START, init).tasks))
            && (AlwaysOneActive(w, sched, steps) <==> AlwaysOneActive(w, sched, init) && AtMostOneActive(w, sched, Run(w, START, steps).tasks))
            && (NeverOverlaps(w, sched, steps) <==> NeverOverlaps(w, sched, init) && !Overlaps(w, sched, Run(w, START, init), steps[|init|]))
  {
    hide Run, Overlaps, AtMostOneActive;
    var init := steps[..|steps| - 1];
    assert forall i :: 0 <= i <= |init| ==> init[..i] == steps[..i];
    assert init[..|init|] == init && steps[..|steps|] == steps;
  }

  lemma NoneActive(w: World, sched: Sched)
    ensures AtMostOneActive(w, sched, START.tasks) && Run(w, START, []) == START
  {
  }

  /** The step makes a run of the schedule active. */
  predicate Activates(w: World, sched: Sched, s: State, step: Step) {
    match step
    case Put(_, task) => ActiveRun(w, sched, task)
    case Progress(key, phase) => key in s.tasks && ActiveRun(w, sched, s.tasks[key].(phase := phase))
    case _ => false
  }

  predicate NoneActiveIn(w: World, sched: Sched, tasks: map<string, Task>) {
    forall k :: k in tasks ==> !ActiveRun(w, sched, tasks[k])
  }

  lemma {:induction false} StaysInactive(w: World, sched: Sched, s: State, between: seq<Step>)
    requires NoneActiveIn(w, sched, s.tasks) && (forall i :: 0 <= i < |between| ==> between[i].Look? || ByOthers(between[i]))
    requires forall i :: 0 <= i < |between| ==> !Activates(w, sched, Run(w, s, between[..i]), between[i])
    ensures NoneActiveIn(w, sched, Run(w, s, between).tasks)
  {
    hide Next, Activates, NoneActiveIn;
    if between != [] {
      var init := between[..|between| - 1];
      forall i | 0 <= i < |init| ensures !Activates(w, sched, Run(w, s, init[..i]), init[i]) {
        assert init[..i] == between[..i];
      }
      StaysInactive(w, sched, s, init);
      assert between[..|init|] == init;
      StepInactive(w, sched, Run(w, s, init), between[|init|]);
    }
  }

  lemma StepInactive(w: World, sched: Sched, s: State, step: Step)
    requires NoneActiveIn(w, sched, s.tasks) && (step.Look? || ByOthers(step)) && !Activates(w, sched, s, step)
    ensures NoneActiveIn(w, sched, Next(w, s, step).tasks)
  {
    hide ActiveRun, RunKey, LabelsMatch;
  }

  /** What Forbid is worth: a tick that gets to its lookup under a working task list saw no active run, so its
      write overlaps only if somebody made one active since. */
  lemma ForbidGuards(w: World, s: State, id: nat, now: int, slot: Option<nat>, between: seq<Step>)
    requires s.busy.None? && id in w.scheds && w.scheds[id].forbid
    requires BusyAt(w, Next(w, s, Tick(id, now, slot, true)), Looking)
    requires forall i :: 0 <= i < |between| ==> between[i].Look? || ByOthers(between[i])
    requires var t := Next(w, s, Tick(id, now, slot, true));
             forall i :: 0 <= i < |between| ==> !Activates(w, w.scheds[id], Run(w, t, between[..i]), between[i])
    ensures !Overlaps(w, w.scheds[id], Run(w, Next(w, s, Tick(id, now, slot, true)), between), Write(true))
  {
    hide ActiveRun, RunKey, WithinDeadline, Due, Run, Activates;
    var t := Next(w, s, Tick(id, now, slot, true));
    assert NoneActiveIn(w, w.scheds[id], t.tasks);
    StaysInactive(w, w.scheds[id], t, between);
  }

  /** A run that waits for an approval is not active, so the next slot's run starts beside it; once the
      approval is given, the resumption overlaps, under Forbid and with every store call working. */
  lemma ForbidOverlaps(w: World, id: nat, now: int, slot: nat, later: int, next: nat) returns (steps: seq<Step>)
    requires Ready(w, START, id, now, slot) && w.scheds[id].forbid && '/' !in w.scheds[id].runNamespace && slot < next
    requires IsLatest(w.scheds[id].expr, later, Some(next)) && WithinDeadline(w.scheds[id], next, later)
    ensures ValidSteps(w, steps) && steps != [] && steps[|steps| - 1].Progress?
    ensures var s := Run(w, START, steps[..|steps| - 1]);
            && AtMostOneActive(w, w.scheds[id], s.tasks) && Overlaps(w, w.scheds[id], s, steps[|steps| - 1])
  {
    hide IsLatest, WithinDeadline, Base, SlotName;
    var x := w.scheds[id];
    RunKeyIff(x.runNamespace, x.name, slot, x.runNamespace, x.name, next, w.lower);
    var k, l := KeyOf(w, id, slot), KeyOf(w, id, next);
    assert k != l;
    hide RunKey, Run, KeyOf;
    NoSteps(w, START);
    steps := ServeNoted(w, [], id, now, slot, true);
    var pending, waiting := NewTask(w, id, slot), Task(RunOf(x.name, x.namespace, slot), WaitingApproval);
    assert Run(w, START, steps).tasks == map[k := pending] && Run(w, START, steps).last == map[id := At(slot * MINUTE)];
    steps := Then(w, START, steps, Progress(k, WaitingApproval));
    assert Run(w, START, steps).tasks == map[k := waiting];
    steps := ServeAlone(w, steps, id, later, next);
    var before := steps;
    assert Run(w, START, steps).tasks == map[k := waiting, l := NewTask(w, id, next)];
    OneWaits(w, id, k, l, slot, next);
    steps := Then(w, START, steps, Progress(k, Running));
    assert steps[..|steps| - 1] == before;
  }

  /** Of a run that waits and a new one only the latter is active, and resuming the former overlaps. */
  lemma OneWaits(w: World, id: nat, k: string, l: string, slot: nat, next: nat)
    requires id in w.scheds && k != l
    ensures var x := w.scheds[id];
            var tasks := map[k := Task(RunOf(x.name, x.namespace, slot), WaitingApproval), l := NewTask(w, id, next)];
            && AtMostOneActive(w, x, tasks)
            && forall s: State :: s.tasks == tasks ==> Overlaps(w, x, s, Progress(k, Running))
  {
    var x := w.scheds[id];
    var tasks := map[k := Task(RunOf(x.name, x.namespace, slot), WaitingApproval), l := NewTask(w, id, next)];
    assert l in tasks && ActiveRun(w, x, tasks[l]);
  }

  // ---------------------------------------------------------------- the code

  datatype DueSlot = NotDue | DueAt(slot: int, withinDeadline: bool) | BadStatus

  method EvaluateDueSlot(sched: Sched, e: Expression, last: LastTime, now: int) returns (r: DueSlot)
    requires Parsed(e)
    ensures r.DueAt? ==> IsPrev(e, now, Some(r.slot)) && !last.Unreadable? && (last.At? ==> r.slot * MINUTE > last.time)
                         && (r.withinDeadline <==> now - r.slot * MINUTE <= Deadline(sched))
    ensures r.NotDue? ==> Never(e) || (last.At? && exists p :: IsPrev(e, now, Some(p)) && p * MINUTE <= last.time)
    ensures r.BadStatus? <==> last.Unreadable? && !Never(e)
    ensures r.BadStatus? ==> exists p :: IsPrev(e, now, Some(p))
  {
    hide Matches;
    var latest := Prev(e, now);
    if latest.None? {
      return NotDue;
    }
    assert Matches(e, latest.value);
    if !last.Unset? {
      if last.Unreadable? {
        return BadStatus;
      }
      if latest.value * MINUTE <= last.time {
        return NotDue;
      }
    }
    var deadline := sched.deadlineSeconds * 1_000_000_000;
    if deadline <= 0 {
      deadline := 300 * 1_000_000_000;
    }
    assert deadline == Deadline(sched);
    return DueAt(latest.value, now - latest.value * MINUTE <= deadline);
  }

  /** From ten years on, the latest slot is not before the start of time. */
  lemma LatestNotNegative(e: Expression, now: int, m: int)
    requires Parsed(e) && IsPrev(e, now, Some(m)) && now >= MAX_STEPS * MINUTE
    ensures m >= 0
  {
    hide Matches;
    BoundSuffices(e, m, now / MINUTE);
    var x :| now / MINUTE - MAX_STEPS < x <= now / MINUTE && Matches(e, x);
    assert x >= 0 && x * MINUTE <= now;
  }

  /** Which of a reconcile's store calls succeed. */
  datatype Calls = Calls(list: bool, template: bool, lookup: bool, write: bool, status: bool)

  /** What a reconcile reports as its error. */
  datatype Failure = BadSpec | BadTime | RunRefused | CleanupFailed

  datatype Status = Status(phase: string, lastError: Option<Failure>)

  /** The run goes on with whatever others do, and then with a step of the controller's. */
  lemma Extend(w: World, s0: State, steps: seq<Step>, others: seq<Step>, step: Step)
    requires ValidSteps(w, steps) && AllByOthers(others) && ValidStep(w, step)
    ensures var s := Run(w, Run(w, s0, steps), others);
            && s.busy == Run(w, s0, steps).busy && s.served == Run(w, s0, steps).served
            && ValidSteps(w, steps + others + [step]) && Run(w, s0, steps + others + [step]) == Next(w, s, step)
  {
    hide Next;
    OthersKeep(w, Run(w, s0, steps), others);
    RunConcat(w, s0, steps, others);
    var all := steps + others + [step];
    assert all[..|all| - 1] == steps + others;
    forall i | 0 <= i < |all| ensures ValidStep(w, all[i]) {
      if |steps| <= i < |steps| + |others| {
        assert ByOthers(others[i - |steps|]);
      }
    }
  }

  /** The lookup and the write of the run task, with others' steps before each. */
  method EnsureRunTask(w: World, ghost s0: State, ghost steps0: seq<Step>, s1: State, calls: Calls, before: seq<Step>, between: seq<Step>)
    returns (s: State, refused: bool, ghost steps: seq<Step>)
    requires ValidSteps(w, steps0) && s1 == Run(w, s0, steps0) && BusyAt(w, s1, Looking) && AllByOthers(before) && AllByOthers(between)
    ensures ValidSteps(w, steps) && s == Run(w, s0, steps) && s.busy == Some(s1.busy.value.(stage := Noting))
    ensures refused <==> s.served == s1.served
  {
    hide Run, RunKey, LabelsMatch, ValidSteps, AllByOthers;
    var b := s1.busy.value;
    var key := KeyOf(w, b.id, b.slot);
    Extend(w, s0, steps0, before, Look(calls.template, calls.lookup));
    steps := steps0 + before + [Look(calls.template, calls.lookup)];
    s := Run(w, s1, before);
    if !calls.template {
      return Noted(s), true, steps;
    }
    if calls.lookup && key in s.tasks {
      if !LabelsMatch(w, w.scheds[b.id], b.slot, s.tasks[key].mark) {
        return Noted(s), true, steps;
      }
      s := Noted(s).(served := s.served + [Served(b.id, b.slot, key, false, b.now)]);
      return s, false, steps;
    }
    s := s.(busy := Some(b.(stage := Writing)));
    Extend(w, s0, steps, between, Write(calls.write));
    steps := steps + between + [Write(calls.write)];
    s := Run(w, s, between);
    refused := !calls.write;
    if calls.write {
      s := s.(tasks := s.tasks[key := NewTask(w, b.id, b.slot)], served := s.served + [Served(b.id, b.slot, key, true, b.now)]);
    }
    s := Noted(s);
  }

  /** The slot is due, within its deadline and not held back: the reconcile tries to run it. */
  ghost predicate Tried(w: World, s: State, id: nat, now: int, list: bool, slot: nat)
    requires id in w.scheds
  {
    IsLatest(w.scheds[id].expr, now, Some(slot)) && Due(LastOf(s, id), Some(slot)) && WithinDeadline(w.scheds[id], slot, now)
    && !Held(w, s.tasks, w.scheds[id], list)
  }

  /** The error a reconcile ends with, from what it met; `tried` and `ran` say whether it tried to run a slot
      and whether one was served. */
  ghost predicate Reports(w: World, s: State, id: nat, cleanup: bool, tried: bool, ran: bool, error: Option<Failure>)
    requires id in w.scheds
  {
    var e := w.scheds[id].expr;
    error == if e.None? then Some(BadSpec)
             else if w.scheds[id].suspend then None
             else if LastOf(s, id).Unreadable? && Parsed(e.value) && !Never(e.value) then Some(BadTime)
             else if !cleanup then Some(CleanupFailed)
             else if tried && !ran then Some(RunRefused)
             else None
  }

  /** One reconcile of one schedule, with others' steps before its lookup, its write and its status write, is a
      run of the machine that leaves no tick under way. Exactly which error it reports; its phase is Error with
      an error and, whatever it was before and also if the schedule is suspended, Ready without. */
  method ReconcileSchedule(w: World, s0: State, id: nat, now: int, calls: Calls, others: seq<seq<Step>>, cleanup: bool, prior: string)
    returns (s: State, status: Status, ghost steps: seq<Step>, ghost tried: bool)
    requires s0.busy.None? && id in w.scheds && (w.scheds[id].expr.Some? ==> Parsed(w.scheds[id].expr.value)) && now >= MAX_STEPS * MINUTE
    requires |others| == 3 && AllByOthers(others[0]) && AllByOthers(others[1]) && AllByOthers(others[2])
    ensures ValidSteps(w, steps) && s == Run(w, s0, steps) && s.busy.None?
    ensures tried <==> !w.scheds[id].suspend && exists slot :: Tried(w, s0, id, now, calls.list, slot)
    ensures !tried ==> s.served == s0.served
    ensures Reports(w, s0, id, cleanup, tried, s.served != s0.served, status.lastError)
    ensures status.phase == if status.lastError.None? then "Ready" else "Error"
  {
    hide Matches, RunKey, Never, Held, Run, AllByOthers;
    NoSteps(w, s0);
    var sched := w.scheds[id];
    s, status, steps, tried := s0, Status(prior, None), [], false;
    if sched.expr.None? {
      status := Status("Error", Some(BadSpec));
      return;
    }
    if sched.suspend {
      status := Status("Suspended", None);
    } else {
      var due := EvaluateDueSlot(sched, sched.expr.value, LastOf(s0, id), now);
      if due.BadStatus? {
        status := Status("Error", Some(BadTime));
        return;
      }
      if due.NotDue? {
        NothingDue(w, s0, id, now);
      } else {
        var refused;
        LatestNotNegative(sched.expr.value, now, due.slot);
        OnlyOneTried(w, s0, id, now, calls.list, due.slot);
        s, refused, steps, tried := RunDueSlot(w, s0, id, now, due.slot, due.withinDeadline, calls, others);
        if refused {
          status := Status("Error", Some(RunRefused));
        }
      }
      if !cleanup {
        status := Status("Error", Some(CleanupFailed));
      }
    }
    if status.lastError.None? {
      status := status.(phase := "Ready");
    }
  }

  lemma NothingDue(w: World, s: State, id: nat, now: int)
    requires id in w.scheds && w.scheds[id].expr.Some? && Parsed(w.scheds[id].expr.value)
    requires var e, last := w.scheds[id].expr.value, LastOf(s, id);
             Never(e) || (last.At? && exists p :: IsPrev(e, now, Some(p)) && p * MINUTE <= last.time)
    ensures forall slot: nat :: IsLatest(w.scheds[id].expr, now, Some(slot)) ==> !Due(LastOf(s, id), Some(slot))
  {
    hide Matches;
    var e := w.scheds[id].expr.value;
    forall slot: nat | IsLatest(w.scheds[id].expr, now, Some(slot)) ensures !Due(LastOf(s, id), Some(slot)) {
      assert Matches(e, slot);
      var p :| IsPrev(e, now, Some(p)) && p * MINUTE <= LastOf(s, id).time;
      ResultsUnique(e, now, Some(p), Some(slot as int));
    }
  }

  lemma OnlyOneTried(w: World, s: State, id: nat, now: int, list: bool, slot: nat)
    requires id in w.scheds && IsLatest(w.scheds[id].expr, now, Some(slot))
    ensures (exists x :: Tried(w, s, id, now, list, x)) <==> Tried(w, s, id, now, list, slot)
  {
    hide Matches, IsPrev, Held, WithinDeadline;
    forall x | Tried(w, s, id, now, list, x) ensures x == slot {
      ResultsUnique(w.scheds[id].expr.value, now, Some(x as int), Some(slot as int));
    }
  }

  method RunDueSlot(w: World, s0: State, id: nat, now: int, slot: nat, within: bool, calls: Calls, others: seq<seq<Step>>)
    returns (s: State, refused: bool, ghost steps: seq<Step>, ghost tried: bool)
    requires s0.busy.None? && id in w.scheds && !w.scheds[id].suspend && IsLatest(w.scheds[id].expr, now, Some(slot))
    requires Due(LastOf(s0, id), Some(slot)) && (within <==> WithinDeadline(w.scheds[id], slot, now))
    requires |others| == 3 && AllByOthers(others[0]) && AllByOthers(others[1]) && AllByOthers(others[2])
    ensures ValidSteps(w, steps) && s == Run(w, s0, steps) && s.busy.None?
    ensures tried <==> Tried(w, s0, id, now, calls.list, slot)
    ensures (!tried ==> s.served == s0.served) && (refused <==> tried && s.served == s0.served)
  {
    hide RunKey, Held, Run, AllByOthers, IsLatest, WithinDeadline, Due;
    NoSteps(w, s0);
    steps := Then(w, s0, [], Tick(id, now, Some(slot), calls.list));
    var go := within && !Held(w, s0.tasks, w.scheds[id], calls.list);
    s, refused, tried := s0.(busy := Some(Busy(id, slot, now, if go then Looking else Noting))), false, go;
    if go {
      s, refused, steps := EnsureRunTask(w, s0, steps, s, calls, others[0], others[1]);
    }
    Extend(w, s0, steps, others[2], Note(calls.status));
    steps := steps + others[2] + [Note(calls.status)];
    s := Run(w, s, others[2]);
    if calls.status {
      s := s.(last := s.last[id := At(slot * MINUTE)]);
    }
    s := s.(busy := None);
  }
}
