/** Delivery of a webhook's events, each possibly many times and concurrently: a pre-check of the dedupe
    store, the creation of the run task, and an atomic insert into the dedupe store.

    The protocol is a state machine. Deliveries take their steps in any interleaving and may stop anywhere;
    the dedupe store is also pruned on behalf of others; others delete tasks and write them. One clock runs
    for all, and each delivery reads it once, at its start. */
module Webhook {
  import opened Strings

  /** The webhook: its name, the namespace of its runs, its dedupe window, and the short hex digest of an event
      id. */
  datatype Hook = Hook(name: string, runNamespace: string, window: int, hash: string -> string)

  /** Names longer than 42 characters are cut. */
  function WebhookTaskName(webhookName: string, eventID: string, hash: string -> string): string {
    var trimmed := TrimSpace(webhookName);
    var base := if trimmed == "" then "webhook-task" else trimmed;
    (if |base| > 42 then base[..42] else base) + "-" + hash(TrimSpace(eventID))
  }

  /** The key of an event's run task. */
  function KeyOf(h: Hook, event: string): string {
    h.runNamespace + "/" + WebhookTaskName(h.name, event, h.hash)
  }

  /** Two events share a key exactly when their digests agree. */
  lemma KeySharedIff(h: Hook, e1: string, e2: string)
    ensures KeyOf(h, e1) == KeyOf(h, e2) <==> h.hash(TrimSpace(e1)) == h.hash(TrimSpace(e2))
  {
    hide TrimSpace;
    var trimmed := TrimSpace(h.name);
    var base := if trimmed == "" then "webhook-task" else trimmed;
    var cut := h.runNamespace + "/" + ((if |base| > 42 then base[..42] else base) + "-");
    var h1, h2 := h.hash(TrimSpace(e1)), h.hash(TrimSpace(e2));
    assert KeyOf(h, e1) == cut + h1 && KeyOf(h, e2) == cut + h2;
    assert (cut + h1)[|cut|..] == h1 && (cut + h2)[|cut|..] == h2;
  }

  /** The key is the namespace, the webhook's trimmed name up to 42 characters, or "webhook-task" if it is blank,
      and the digest of the trimmed event id. */
  lemma KeyReads(h: Hook, event: string)
    ensures var name, digest := TrimSpace(h.name), h.hash(TrimSpace(event));
            KeyOf(h, event) == h.runNamespace + "/" + (if name == "" then "webhook-task" else if |name| <= 42 then name else name[..42]) + "-" + digest
  {
    hide TrimSpace;
  }

  // ---------------------------------------------------------------- the machine

  datatype Response = Accepted(task: string) | Duplicate(task: string) | Failed | Stopped

  /** Where a delivery stands: before the pre-check, before the task lookup, before the task write, before
      the insert, or finished. */
  datatype Delivery =
    | Checking(event: string, now: int)
    | Looking(event: string, now: int)
    | Writing(event: string, now: int)
    | Inserting(event: string, now: int)
    | Finished(event: string, response: Response)

  datatype Item = Item(task: string, expires: int)

  /** Whose task it is: one of ours, made for an event; one of others that carries the webhook's labels; or one
      that does not. */
  datatype Owner = Ours(event: string) | Lookalike | Foreign

  /** An accepted delivery: its event, its start and the moment of its insert. */
  datatype Acceptance = Acceptance(event: string, start: int, inserted: int)

  /** The stores and the deliveries, and the history: `gone` are the keys whose task others deleted or replaced
      and no delivery has written since; `raced` those that somebody else wrote, or came to write, while a
      delivery was about to; `overwritten` those where a delivery's write replaced a task. */
  datatype State = State(
    clock: int, items: map<string, Item>, tasks: map<string, Owner>, deliveries: map<nat, Delivery>,
    accepted: seq<Acceptance>, gone: set<string>, raced: set<string>, overwritten: set<string>)

  datatype Step =
    | Tick(nanos: nat)
    | Start(d: nat, eventID: string)
    | Check(d: nat)
    | Look(d: nat)
    | Write(d: nat)
    | Insert(d: nat)
    | Stop(d: nat)
    | PruneOther(now: int)
    | Delete(key: string)
    | Put(key: string, owner: Owner)

  function Pruned(items: map<string, Item>, now: int): map<string, Item> {
    map e | e in items && items[e].expires > now :: items[e]
  }

  predicate IsWriting(h: Hook, d: Delivery, key: string) {
    d.Writing? && KeyOf(h, d.event) == key
  }

  ghost predicate SomeoneWriting(h: Hook, s: State, key: string) {
    exists d :: d in s.deliveries && IsWriting(h, s.deliveries[d], key)
  }

  ghost function Next(h: Hook, s: State, step: Step): State {
    match step
    case Tick(nanos) => s.(clock := s.clock + nanos)
    case Start(d, eventID) =>
      var event := TrimSpace(eventID);
      if d in s.deliveries then s
      else s.(deliveries := s.deliveries[d := if event == "" then Finished(event, Failed) else Checking(event, s.clock)])
    case Check(d) =>
      if d !in s.deliveries || !s.deliveries[d].Checking? then s
      else
        var event, now := s.deliveries[d].event, s.deliveries[d].now;
        var items := Pruned(s.items, now);
        s.(items := items, deliveries := s.deliveries[d :=
             if event in items then Finished(event, Duplicate(items[event].task)) else Looking(event, now)])
    case Look(d) =>
      if d !in s.deliveries || !s.deliveries[d].Looking? then s
      else
        var event, now := s.deliveries[d].event, s.deliveries[d].now;
        var key := KeyOf(h, event);
        if key !in s.tasks then
          s.(deliveries := s.deliveries[d := Writing(event, now)], raced := if SomeoneWriting(h, s, key) then s.raced + {key} else s.raced)
        else s.(deliveries := s.deliveries[d := if s.tasks[key].Foreign? then Finished(event, Failed) else Inserting(event, now)])
    case Write(d) =>
      if d !in s.deliveries || !s.deliveries[d].Writing? then s
      else
        var event := s.deliveries[d].event;
        var key := KeyOf(h, event);
        s.(tasks := s.tasks[key := Ours(event)], gone := s.gone - {key},
           overwritten := if key in s.tasks then s.overwritten + {key} else s.overwritten,
           deliveries := s.deliveries[d := Inserting(event, s.deliveries[d].now)])
    case Insert(d) =>
      if d !in s.deliveries || !s.deliveries[d].Inserting? then s
      else
        var event, now := s.deliveries[d].event, s.deliveries[d].now;
        var items, key := Pruned(s.items, now), KeyOf(h, event);
        if event in items then s.(items := items, deliveries := s.deliveries[d := Finished(event, Duplicate(items[event].task))])
        else s.(items := items[event := Item(key, now + h.window)], accepted := s.accepted + [Acceptance(event, now, s.clock)],
                deliveries := s.deliveries[d := Finished(event, Accepted(key))])
    case Stop(d) =>
      if d !in s.deliveries || s.deliveries[d].Finished? then s
      else s.(deliveries := s.deliveries[d := Finished(s.deliveries[d].event, Stopped)])
    case PruneOther(now) => if now <= s.clock then s.(items := Pruned(s.items, now)) else s
    case Delete(key) => if key in s.tasks then s.(tasks := s.tasks - {key}, gone := s.gone + {key}) else s
    case Put(key, owner) =>
      if owner.Ours? then s
      else s.(tasks := s.tasks[key := owner], gone := if key in s.tasks then s.gone + {key} else s.gone,
              raced := if SomeoneWriting(h, s, key) then s.raced + {key} else s.raced)
  }

  ghost function Run(h: Hook, s: State, steps: seq<Step>): State {
    if steps == [] then s else Next(h, Run(h, s, steps[..|steps| - 1]), steps[|steps| - 1])
  }

  /** No delivery yet and none of our tasks; other tasks may be there. */
  ghost predicate Initial(s: State) {
    && s.items == map[] && s.deliveries == map[] && s.accepted == [] && s.gone == {} && s.raced == {} && s.overwritten == {}
    && forall k :: k in s.tasks ==> !s.tasks[k].Ours?
  }

  // ---------------------------------------------------------------- what every step keeps

  predicate Succeeded(d: Delivery) {
    d.Finished? && (d.response.Accepted? || d.response.Duplicate?)
  }

  /** Tasks of ours, dedupe items and answers all go by the key of their event. */
  ghost predicate OneKey(h: Hook, s: State) {
    && (forall k :: k in s.tasks && s.tasks[k].Ours? ==> k == KeyOf(h, s.tasks[k].event))
    && (forall e :: e in s.items ==> s.items[e].task == KeyOf(h, e))
    && (forall d :: d in s.deliveries && Succeeded(s.deliveries[d]) ==> s.deliveries[d].response.task == KeyOf(h, s.deliveries[d].event))
  }

  predicate ThereOrGone(s: State, key: string) {
    (key in s.tasks && !s.tasks[key].Foreign?) || key in s.gone
  }

  predicate PastTask(d: Delivery) {
    d.Inserting? || Succeeded(d)
  }

  /** Once a delivery is past the task, the run task is there unless others took it away since. */
  ghost predicate TaskThere(h: Hook, s: State) {
    && (forall e :: e in s.items ==> ThereOrGone(s, KeyOf(h, e)))
    && (forall d :: d in s.deliveries && PastTask(s.deliveries[d]) ==> ThereOrGone(s, KeyOf(h, s.deliveries[d].event)))
  }

  ghost predicate Started(s: State) {
    forall d :: d in s.deliveries && !s.deliveries[d].Finished? ==> s.deliveries[d].now <= s.clock
  }

  /** An acceptance still blocks others of its event, or its window is over. */
  predicate BlocksOrOver(h: Hook, s: State, a: Acceptance) {
    (a.event in s.items && s.items[a.event].expires == a.start + h.window) || s.clock >= a.start + h.window
  }

  ghost predicate Blocking(h: Hook, s: State) {
    forall i :: 0 <= i < |s.accepted| ==> s.accepted[i].inserted <= s.clock && BlocksOrOver(h, s, s.accepted[i])
  }

  /** Acceptances of one event come each after the windows of those before. */
  ghost predicate Spaced(h: Hook, accepted: seq<Acceptance>) {
    forall i, j :: 0 <= i < j < |accepted| && accepted[i].event == accepted[j].event ==>
      accepted[j].inserted >= accepted[i].start + h.window
  }

  ghost predicate Windows(h: Hook, s: State) {
    Started(s) && Blocking(h, s) && Spaced(h, s.accepted)
  }

  predicate AcceptedOnce(s: State, event: string) {
    exists i :: 0 <= i < |s.accepted| && s.accepted[i].event == event
  }

  /** Items and successful answers have an acceptance of their event behind them. */
  ghost predicate Backed(s: State) {
    && (forall e :: e in s.items ==> AcceptedOnce(s, e))
    && (forall d :: d in s.deliveries && Succeeded(s.deliveries[d]) ==> AcceptedOnce(s, s.deliveries[d].event))
  }

  /** A key that was not raced has at most one delivery about to write it, and then no task. */
  ghost predicate Writes(h: Hook, s: State) {
    && s.overwritten <= s.raced
    && (forall d, k :: d in s.deliveries && IsWriting(h, s.deliveries[d], k) && k !in s.raced ==> k !in s.tasks)
    && (forall d, e, k :: d in s.deliveries && e in s.deliveries && k !in s.raced ==>
          IsWriting(h, s.deliveries[d], k) && IsWriting(h, s.deliveries[e], k) ==> d == e)
  }

  ghost predicate Inv(h: Hook, s: State) {
    OneKey(h, s) && TaskThere(h, s) && Windows(h, s) && Backed(s) && Writes(h, s)
  }

  lemma OneKeyKept(h: Hook, s: State, step: Step)
    requires OneKey(h, s)
    ensures OneKey(h, Next(h, s, step))
  {
    hide KeyOf, TrimSpace, SomeoneWriting;
  }

  lemma TaskThereKept(h: Hook, s: State, step: Step)
    requires TaskThere(h, s)
    ensures TaskThere(h, Next(h, s, step))
  {
    hide KeyOf, TrimSpace, SomeoneWriting;
  }

  lemma StartedKept(h: Hook, s: State, step: Step)
    requires Started(s)
    ensures Started(Next(h, s, step)) && s.clock <= Next(h, s, step).clock
  {
    hide KeyOf, TrimSpace, SomeoneWriting;
  }

  lemma BlockingKept(h: Hook, s: State, step: Step)
    requires Started(s) && Blocking(h, s)
    ensures Blocking(h, Next(h, s, step))
  {
    hide KeyOf, TrimSpace, SomeoneWriting;
  }

  lemma SpacedKept(h: Hook, s: State, step: Step)
    requires Windows(h, s)
    ensures Spaced(h, Next(h, s, step).accepted)
  {
    hide KeyOf, TrimSpace, SomeoneWriting;
  }

  lemma BackedKept(h: Hook, s: State, step: Step)
    requires Backed(s)
    ensures Backed(Next(h, s, step))
  {
    hide KeyOf, TrimSpace, SomeoneWriting, AcceptedOnce;
    if step.Insert? {
      InsertBacked(h, s, step.d);
    } else {
      AcceptedGrows(s, Next(h, s, step));
    }
  }

  lemma InsertBacked(h: Hook, s: State, d: nat)
    requires Backed(s)
    ensures Backed(Next(h, s, Insert(d)))
  {
    hide KeyOf, AcceptedOnce;
    var t := Next(h, s, Insert(d));
    AcceptedGrows(s, t);
  }

  /** Acceptances stay, and a new one accepts its event. */
  lemma AcceptedGrows(s: State, t: State)
    requires t.accepted == s.accepted || (|t.accepted| == |s.accepted| + 1 && t.accepted[..|s.accepted|] == s.accepted)
    ensures forall e :: AcceptedOnce(s, e) ==> AcceptedOnce(t, e)
    ensures |t.accepted| > |s.accepted| ==> AcceptedOnce(t, t.accepted[|s.accepted|].event)
  {
    forall e | AcceptedOnce(s, e) ensures AcceptedOnce(t, e) {
      var i :| 0 <= i < |s.accepted| && s.accepted[i].event == e;
      assert t.accepted[i] == s.accepted[i];
    }
  }

  lemma WritesKept(h: Hook, s: State, step: Step)
    requires Writes(h, s)
    ensures Writes(h, Next(h, s, step))
  {
    hide KeyOf, TrimSpace, IsWriting, SomeoneWriting;
    match step
    case Look(d) => LookWrites(h, s, d);
    case Write(d) => WriteWrites(h, s, d);
    case Put(key, owner) => PutWrites(h, s, key, owner);
    case Tick(_) =>
    case Delete(_) =>
    case PruneOther(_) =>
    case Start(d, _) => NoNewWriter(h, s, Next(h, s, step), d);
    case Check(d) => NoNewWriter(h, s, Next(h, s, step), d);
    case Insert(d) => NoNewWriter(h, s, Next(h, s, step), d);
    case Stop(d) => NoNewWriter(h, s, Next(h, s, step), d);
  }

  /** Steps after which one delivery is not about to write, and that leave tasks and history alone. */
  lemma NoNewWriter(h: Hook, s: State, t: State, d: nat)
    requires Writes(h, s) && t.tasks == s.tasks && t.raced == s.raced && t.overwritten == s.overwritten
    requires t == s || (d in t.deliveries && !t.deliveries[d].Writing? && t.deliveries == s.deliveries[d := t.deliveries[d]])
             || t.deliveries == s.deliveries
    ensures Writes(h, t)
  {
    hide KeyOf;
    assert forall e :: e in t.deliveries && t.deliveries[e].Writing? ==> e in s.deliveries && s.deliveries[e] == t.deliveries[e];
  }

  lemma LookWrites(h: Hook, s: State, d: nat)
    requires Writes(h, s)
    ensures Writes(h, Next(h, s, Look(d)))
  {
    hide KeyOf;
  }

  lemma WriteWrites(h: Hook, s: State, d: nat)
    requires Writes(h, s)
    ensures Writes(h, Next(h, s, Write(d)))
  {
    hide KeyOf, SomeoneWriting;
    if d in s.deliveries && s.deliveries[d].Writing? {
      assert IsWriting(h, s.deliveries[d], KeyOf(h, s.deliveries[d].event));
    }
  }

  lemma PutWrites(h: Hook, s: State, key: string, owner: Owner)
    requires Writes(h, s)
    ensures Writes(h, Next(h, s, Put(key, owner)))
  {
    hide KeyOf;
  }

  lemma {:induction false} Reachable(h: Hook, s: State, steps: seq<Step>)
    requires Initial(s)
    ensures Inv(h, Run(h, s, steps))
  {
    hide OneKey, TaskThere, Started, Blocking, Spaced, Backed, Writes, Next;
    if steps == [] {
      InitialInv(h, s);
    } else {
      Reachable(h, s, steps[..|steps| - 1]);
      var before, step := Run(h, s, steps[..|steps| - 1]), steps[|steps| - 1];
      OneKeyKept(h, before, step);
      TaskThereKept(h, before, step);
      StartedKept(h, before, step);
      BlockingKept(h, before, step);
      SpacedKept(h, before, step);
      BackedKept(h, before, step);
      WritesKept(h, before, step);
    }
  }

  lemma InitialInv(h: Hook, s: State)
    requires Initial(s)
    ensures Inv(h, s)
  {
    hide KeyOf;
  }

  // ---------------------------------------------------------------- theorems

  /** Whatever the interleaving, the deletions and the stops: a task of ours is under the key of the event it
      was made for, every successful answer names the key of its event, and that task is there unless others
      deleted or replaced it since it was last written. */
  lemma OneTaskPerEvent(h: Hook, s: State, steps: seq<Step>)
    requires Initial(s)
    ensures var t := Run(h, s, steps);
            && (forall k :: k in t.tasks && t.tasks[k].Ours? ==> k == KeyOf(h, t.tasks[k].event))
            && (forall d :: d in t.deliveries && Succeeded(t.deliveries[d]) ==>
                  t.deliveries[d].response.task == KeyOf(h, t.deliveries[d].event) && ThereOrGone(t, KeyOf(h, t.deliveries[d].event)))
  {
    hide Run, KeyOf, Windows, Backed, Writes;
    Reachable(h, s, steps);
  }

  /** Over any run, two successful answers name one task exactly when the digests of their events agree; so one
      event never gets two. */
  lemma AnswersShareIff(h: Hook, s: State, steps: seq<Step>, d: nat, e: nat)
    requires Initial(s) && d in Run(h, s, steps).deliveries && e in Run(h, s, steps).deliveries
    requires Succeeded(Run(h, s, steps).deliveries[d]) && Succeeded(Run(h, s, steps).deliveries[e])
    ensures var x, y := Run(h, s, steps).deliveries[d], Run(h, s, steps).deliveries[e];
            x.response.task == y.response.task <==> h.hash(TrimSpace(x.event)) == h.hash(TrimSpace(y.event))
  {
    hide Run, KeyOf, TrimSpace, Windows, Backed, Writes;
    Reachable(h, s, steps);
    KeySharedIff(h, Run(h, s, steps).deliveries[d].event, Run(h, s, steps).deliveries[e].event);
  }

  /** Two deliveries of an event are never accepted within one window: a later acceptance is inserted only when
      the window that opened with the earlier delivery's start is over. */
  lemma OneAcceptancePerWindow(h: Hook, s: State, steps: seq<Step>, i: nat, j: nat)
    requires Initial(s) && i < j < |Run(h, s, steps).accepted|
    requires Run(h, s, steps).accepted[i].event == Run(h, s, steps).accepted[j].event
    ensures var accepted := Run(h, s, steps).accepted; accepted[j].inserted >= accepted[i].start + h.window
  {
    hide Run, OneKey, TaskThere, Backed, Writes;
    Reachable(h, s, steps);
  }

  /** Every successful answer, duplicates included, has an acceptance of its event behind it. */
  lemma DuplicateAfterAcceptance(h: Hook, s: State, steps: seq<Step>, d: nat)
    requires Initial(s) && d in Run(h, s, steps).deliveries && Succeeded(Run(h, s, steps).deliveries[d])
    ensures AcceptedOnce(Run(h, s, steps), Run(h, s, steps).deliveries[d].event)
  {
    hide Run, OneKey, TaskThere, Windows, Writes, AcceptedOnce;
    Reachable(h, s, steps);
  }

  /** A delivery's write replaces a task only if somebody else wrote it, or came to write it, while the
      delivery was about to. */
  lemma OverwrittenOnlyIfRaced(h: Hook, s: State, steps: seq<Step>)
    requires Initial(s)
    ensures Run(h, s, steps).overwritten <= Run(h, s, steps).raced
  {
    hide Run, OneKey, TaskThere, Windows, Backed;
    Reachable(h, s, steps);
  }

  // ---------------------------------------------------------------- what can happen

  lemma Then(h: Hook, s: State, steps: seq<Step>, step: Step) returns (more: seq<Step>)
    ensures Run(h, s, more) == Next(h, Run(h, s, steps), step)
  {
    more := steps + [step];
    assert more[..|steps|] == steps;
  }

  lemma NoSteps(h: Hook, s: State)
    ensures Run(h, s, []) == s
  {
  }

  lemma WriteStep(h: Hook, s: State, d: nat, event: string, now: int)
    requires d in s.deliveries && s.deliveries[d] == Writing(event, now)
    ensures var key := KeyOf(h, event);
            Next(h, s, Write(d)) == s.(tasks := s.tasks[key := Ours(event)], gone := s.gone - {key},
                                       overwritten := if key in s.tasks then s.overwritten + {key} else s.overwritten,
                                       deliveries := s.deliveries[d := Inserting(event, now)])
  {
    hide KeyOf;
  }

  lemma InsertStep(h: Hook, s: State, d: nat, event: string, now: int)
    requires d in s.deliveries && s.deliveries[d] == Inserting(event, now) && event !in Pruned(s.items, now)
    ensures var key := KeyOf(h, event);
            Next(h, s, Insert(d)) == s.(items := Pruned(s.items, now)[event := Item(key, now + h.window)],
                                        accepted := s.accepted + [Acceptance(event, now, s.clock)],
                                        deliveries := s.deliveries[d := Finished(event, Accepted(key))])
  {
    hide KeyOf;
  }

  lemma StartStep(h: Hook, s: State, d: nat, event: string)
    requires Proper(event) && d !in s.deliveries
    ensures Next(h, s, Start(d, event)) == s.(deliveries := s.deliveries[d := Checking(event, s.clock)])
  {
  }

  lemma CheckStep(h: Hook, s: State, d: nat, event: string, now: int)
    requires d in s.deliveries && s.deliveries[d] == Checking(event, now)
    ensures var items := Pruned(s.items, now);
            Next(h, s, Check(d)) == s.(items := items, deliveries := s.deliveries[d :=
              if event in items then Finished(event, Duplicate(items[event].task)) else Looking(event, now)])
  {
  }

  lemma OtherSteps(h: Hook, s: State, key: string, n: nat, now: int)
    ensures Next(h, s, Delete(key)) == if key in s.tasks then s.(tasks := s.tasks - {key}, gone := s.gone + {key}) else s
    ensures Next(h, s, Tick(n)) == s.(clock := s.clock + n)
    ensures Next(h, s, PruneOther(now)) == if now <= s.clock then s.(items := Pruned(s.items, now)) else s
  {
  }

  /** Deliveries whose event ids differ only in blanks around them are deliveries of one event. */
  lemma BlanksIgnored(h: Hook, s: State, d: nat, x: string, y: string)
    requires TrimSpace(x) == TrimSpace(y)
    ensures Next(h, s, Start(d, x)) == Next(h, s, Start(d, y)) && KeyOf(h, x) == KeyOf(h, y)
  {
    hide TrimSpace;
  }

  predicate Proper(event: string) {
    event != "" && TrimSpace(event) == event
  }

  /** The event's item, if any, has expired. */
  predicate Open(s: State, event: string) {
    event in s.items ==> s.items[event].expires <= s.clock
  }

  /** A new delivery gets as far as the write or, if the task is there, the insert. */
  lemma Arrive(h: Hook, s: State, steps: seq<Step>, d: nat, event: string) returns (more: seq<Step>)
    requires Proper(event)
    requires var t := Run(h, s, steps); d !in t.deliveries && Open(t, event)
    requires var t := Run(h, s, steps); KeyOf(h, event) in t.tasks ==> !t.tasks[KeyOf(h, event)].Foreign?
    ensures var t, u, key := Run(h, s, steps), Run(h, s, more), KeyOf(h, event);
            u == t.(items := Pruned(t.items, t.clock),
                    deliveries := t.deliveries[d := if key in t.tasks then Inserting(event, t.clock) else Writing(event, t.clock)],
                    raced := if key !in t.tasks && SomeoneWriting(h, t, key) then t.raced + {key} else t.raced)
  {
    hide Run, KeyOf, TrimSpace, SomeoneWriting;
    var t := Run(h, s, steps);
    more := Then(h, s, steps, Start(d, event));
    StartStep(h, t, d, event);
    var t1 := Run(h, s, more);
    more := Then(h, s, more, Check(d));
    CheckStep(h, t1, d, event, t.clock);
    var t2 := Run(h, s, more);
    assert t2 == t.(items := Pruned(t.items, t.clock), deliveries := t.deliveries[d := Looking(event, t.clock)]);
    more := Then(h, s, more, Look(d));
    SameWriters(h, t, t2, d, KeyOf(h, event));
  }

  lemma SameWriters(h: Hook, s: State, t: State, d: nat, key: string)
    requires d !in s.deliveries && d in t.deliveries && !t.deliveries[d].Writing? && t.deliveries == s.deliveries[d := t.deliveries[d]]
    ensures SomeoneWriting(h, s, key) <==> SomeoneWriting(h, t, key)
  {
    hide KeyOf;
    if e :| e in s.deliveries && IsWriting(h, s.deliveries[e], key) {
      assert t.deliveries[e] == s.deliveries[e];
    }
  }

  /** A delivery that finds no task, left alone to its end. */
  lemma DeliverFirst(h: Hook, s: State, steps: seq<Step>, d: nat, event: string) returns (more: seq<Step>)
    requires Proper(event)
    requires var t := Run(h, s, steps); d !in t.deliveries && Open(t, event) && KeyOf(h, event) !in t.tasks
    requires !SomeoneWriting(h, Run(h, s, steps), KeyOf(h, event))
    ensures var t, u, key := Run(h, s, steps), Run(h, s, more), KeyOf(h, event);
            u == t.(items := Pruned(t.items, t.clock)[event := Item(key, t.clock + h.window)], tasks := t.tasks[key := Ours(event)],
                    deliveries := t.deliveries[d := Finished(event, Accepted(key))],
                    accepted := t.accepted + [Acceptance(event, t.clock, t.clock)], gone := t.gone - {key})
  {
    hide Run, KeyOf, SomeoneWriting, Next;
    var t, key := Run(h, s, steps), KeyOf(h, event);
    more := Arrive(h, s, steps, d, event);
    WriteStep(h, Run(h, s, more), d, event, t.clock);
    more := Then(h, s, more, Write(d));
    assert Pruned(Pruned(t.items, t.clock), t.clock) == Pruned(t.items, t.clock);
    InsertStep(h, Run(h, s, more), d, event, t.clock);
    more := Then(h, s, more, Insert(d));
  }

  /** Two deliveries that both find no task both write it, and the second write replaces the first task. */
  lemma RacedOverwrites(h: Hook, s: State, event: string) returns (steps: seq<Step>)
    requires Initial(s) && Proper(event) && KeyOf(h, event) !in s.tasks
    ensures Run(h, s, steps).overwritten == {KeyOf(h, event)}
  {
    steps := BothInserting(h, s, event);
  }

  lemma BothInserting(h: Hook, s: State, event: string) returns (steps: seq<Step>)
    requires Initial(s) && Proper(event) && KeyOf(h, event) !in s.tasks
    ensures var t := Run(h, s, steps);
            && t.deliveries == map[0 := Inserting(event, s.clock), 1 := Inserting(event, s.clock)]
            && t.items == map[] && t.clock == s.clock && t.accepted == [] && t.overwritten == {KeyOf(h, event)}
  {
    hide Run, KeyOf, Next;
    steps := BothWriting(h, s, event);
    WriteStep(h, Run(h, s, steps), 0, event, s.clock);
    steps := Then(h, s, steps, Write(0));
    WriteStep(h, Run(h, s, steps), 1, event, s.clock);
    steps := Then(h, s, steps, Write(1));
  }

  lemma BothWriting(h: Hook, s: State, event: string) returns (steps: seq<Step>)
    requires Initial(s) && Proper(event) && KeyOf(h, event) !in s.tasks
    ensures Run(h, s, steps) == s.(deliveries := map[0 := Writing(event, s.clock), 1 := Writing(event, s.clock)], raced := {KeyOf(h, event)})
  {
    hide Run, KeyOf, TrimSpace;
    NoSteps(h, s);
    var empty := Pruned(s.items, s.clock);
    assert empty == map[];
    assert !SomeoneWriting(h, s, KeyOf(h, event));
    steps := Arrive(h, s, [], 0, event);
    var t := Run(h, s, steps);
    assert t == s.(deliveries := map[0 := Writing(event, s.clock)]);
    assert IsWriting(h, t.deliveries[0], KeyOf(h, event));
    steps := Arrive(h, s, steps, 1, event);
  }

  /** Windows count from the start of a delivery and acceptances from its insert. By their starts alone two
      deliveries of one window can both be accepted: the second reads the clock before the first is accepted
      and inserts after the first item has expired and was pruned. */
  lemma LateInsertAccepted(h: Hook, s: State, event: string) returns (steps: seq<Step>)
    requires Initial(s) && Proper(event) && KeyOf(h, event) !in s.tasks && h.window > 0
    ensures Run(h, s, steps).accepted
         == [Acceptance(event, s.clock, s.clock), Acceptance(event, s.clock, s.clock + h.window)]
  {
    hide Run, Next, KeyOf, TrimSpace;
    steps := BothInserting(h, s, event);
    steps := InsertPruneInsert(h, s, steps, 0, 1, event);
  }

  /** Of two deliveries about to insert, one does, time passes, its item is pruned, and the other does. */
  lemma InsertPruneInsert(h: Hook, s: State, steps: seq<Step>, d: nat, e: nat, event: string) returns (more: seq<Step>)
    requires var t := Run(h, s, steps);
             && d != e && d in t.deliveries && e in t.deliveries && t.items == map[] && t.accepted == [] && h.window > 0
             && t.deliveries[d] == t.deliveries[e] == Inserting(event, t.clock)
    ensures var t := Run(h, s, steps);
            Run(h, s, more).accepted == [Acceptance(event, t.clock, t.clock), Acceptance(event, t.clock, t.clock + h.window)]
  {
    hide Run, KeyOf, Next;
    var t := Run(h, s, steps);
    assert Pruned(t.items, t.clock) == map[];
    InsertStep(h, t, d, event, t.clock);
    more := Then(h, s, steps, Insert(d));
    var t1 := Run(h, s, more);
    more := Then(h, s, more, Tick(h.window));
    OtherSteps(h, t1, "", h.window, 0);
    var t2 := Run(h, s, more);
    more := Then(h, s, more, PruneOther(t.clock + h.window));
    OtherSteps(h, t2, "", 0, t.clock + h.window);
    assert Pruned(t2.items, t.clock + h.window) == map[];
    InsertStep(h, Run(h, s, more), e, event, t.clock);
    more := Then(h, s, more, Insert(e));
  }

  /** After its task is deleted, an event's duplicate within the window is answered with a task that is not
      there, and no new one is made. */
  lemma DuplicateNamesDeleted(h: Hook, s: State, event: string) returns (steps: seq<Step>)
    requires Initial(s) && Proper(event) && KeyOf(h, event) !in s.tasks && h.window > 0
    ensures var t := Run(h, s, steps);
            1 in t.deliveries && t.deliveries[1] == Finished(event, Duplicate(KeyOf(h, event))) && KeyOf(h, event) !in t.tasks
  {
    hide Run, KeyOf, TrimSpace;
    NoSteps(h, s);
    assert !SomeoneWriting(h, s, KeyOf(h, event));
    steps := DeliverFirst(h, s, [], 0, event);
    hide SomeoneWriting, Next;
    OtherSteps(h, Run(h, s, steps), KeyOf(h, event), 0, 0);
    steps := Then(h, s, steps, Delete(KeyOf(h, event)));
    StartStep(h, Run(h, s, steps), 1, event);
    steps := Then(h, s, steps, Start(1, event));
    CheckStep(h, Run(h, s, steps), 1, event, s.clock);
    steps := Then(h, s, steps, Check(1));
  }

  /** Once the window is over too, the event's task is written again, without any race. */
  lemma DeletedIsWrittenAgain(h: Hook, s: State, event: string) returns (steps: seq<Step>)
    requires Initial(s) && Proper(event) && KeyOf(h, event) !in s.tasks && h.window >= 0
    ensures var t := Run(h, s, steps);
            && t.raced == {} && 0 in t.deliveries && 1 in t.deliveries
            && t.deliveries[0] == t.deliveries[1] == Finished(event, Accepted(KeyOf(h, event)))
            && KeyOf(h, event) in t.tasks && t.tasks[KeyOf(h, event)] == Ours(event)
  {
    hide Run, KeyOf, TrimSpace;
    NoSteps(h, s);
    assert !SomeoneWriting(h, s, KeyOf(h, event));
    hide Next;
    steps := DeliverFirst(h, s, [], 0, event);
    OtherSteps(h, Run(h, s, steps), KeyOf(h, event), 0, 0);
    steps := Then(h, s, steps, Delete(KeyOf(h, event)));
    OtherSteps(h, Run(h, s, steps), "", h.window, 0);
    steps := Then(h, s, steps, Tick(h.window));
    var t := Run(h, s, steps);
    assert t.deliveries == map[0 := Finished(event, Accepted(KeyOf(h, event)))];
    assert !SomeoneWriting(h, t, KeyOf(h, event));
    steps := DeliverFirst(h, s, steps, 1, event);
  }

  /** If the digests of two events agree, the second event is accepted with the task made for the first: the
      lookup compares the webhook's labels and not the event's, so no task is made for it. */
  lemma CollidingEventsShare(h: Hook, s: State, e1: string, e2: string) returns (steps: seq<Step>)
    requires Initial(s) && Proper(e1) && Proper(e2) && e1 != e2 && h.hash(e1) == h.hash(e2) && KeyOf(h, e1) !in s.tasks
    ensures var t, key := Run(h, s, steps), KeyOf(h, e1);
            && 0 in t.deliveries && t.deliveries[0] == Finished(e1, Accepted(key))
            && 1 in t.deliveries && t.deliveries[1] == Finished(e2, Accepted(key))
            && key in t.tasks && t.tasks[key] == Ours(e1)
  {
    KeySharedIff(h, e1, e2);
    hide Run, KeyOf, TrimSpace;
    NoSteps(h, s);
    assert !SomeoneWriting(h, s, KeyOf(h, e1));
    steps := DeliverFirst(h, s, [], 0, e1);
    hide SomeoneWriting, Next;
    var t := Run(h, s, steps);
    assert e2 !in t.items;
    steps := Arrive(h, s, steps, 1, e2);
    InsertStep(h, Run(h, s, steps), 1, e2, s.clock);
    steps := Then(h, s, steps, Insert(1));
  }
}
