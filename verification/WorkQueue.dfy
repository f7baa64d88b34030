/** The keyed work queue: a key is queued at most once, stays pending until it is done, and waiting
    consumers are woken through a channel with room for one token. */
module WorkQueue {
  import opened Strings

  type Key = string

  // ---------------------------------------------------------------- the queue as an object

  /** The queue's own fields; the machine below adds the callers. */
  datatype Core = Core(pending: set<Key>, items: seq<Key>, token: bool)

  function CoreOf(s: State): Core {
    Core(s.pending, s.items, s.token)
  }

  /** Every method acts on the fields as its steps do on any machine state `s` with these fields. */
  class KeyQueue {
    var pending: set<Key>
    var items: seq<Key>
    var token: bool

    ghost function View(): Core
      reads this
    {
      Core(pending, items, token)
    }

    /** The queued keys are distinct and pending. */
    ghost predicate Valid()
      reads this
    {
      NoRepeats(items) && Elems(items) <= pending
    }

    /** The keys handed out and not yet done. */
    ghost function InProcess(): set<Key>
      reads this
    {
      pending - Elems(items)
    }

    constructor ()
      ensures Valid() && View() == CoreOf(EMPTY)
    {
      pending, items, token := {}, [], false;
    }

    /** The part of Enqueue under the lock; it says whether a token is to be sent. */
    method EnqueueLocked(raw: string, ghost s: State, ghost who: nat) returns (send: bool)
      requires Valid() && CoreOf(s) == View() && who !in s.senders
      modifies this
      ensures Valid() && InProcess() == old(InProcess())
      ensures View() == CoreOf(Next(s, Step.Enqueue(who, raw))) && (send <==> who in Next(s, Step.Enqueue(who, raw)).senders)
      ensures send <==> TrimSpace(raw) != "" && TrimSpace(raw) !in old(pending)
      ensures items == if send then old(items) + [TrimSpace(raw)] else old(items)
    {
      hide TrimSpace;
      var key := TrimSpace(raw);
      if key == "" || key in pending {
        return false;
      }
      pending := pending + {key};
      items := items + [key];
      return true;
    }

    /** The send that follows without the lock; a channel that is full stays full. */
    method Notify(ghost s: State, ghost who: nat)
      requires Valid() && CoreOf(s) == View() && who in s.senders
      modifies this`token
      ensures Valid() && View() == CoreOf(Next(s, Send(who))) && token
    {
      if !token {
        token := true;
      }
    }

    /** Both parts, with nobody in between. */
    method Enqueue(raw: string, ghost s: State, ghost who: nat)
      requires Valid() && CoreOf(s) == View() && who !in s.senders
      modifies this
      ensures Valid() && InProcess() == old(InProcess())
      ensures View() == CoreOf(Next(Next(s, Step.Enqueue(who, raw)), Send(who)))
      ensures var key := TrimSpace(raw);
              if key == "" || key in old(pending) then View() == old(View()) else items == old(items) + [key] && token
    {
      hide TrimSpace;
      var send := EnqueueLocked(raw, s, who);
      if send {
        Notify(Next(s, Step.Enqueue(who, raw)), who);
      }
    }

    method TryPop(ghost s: State, ghost c: nat) returns (key: Key, ok: bool)
      requires Valid() && CoreOf(s) == View() && c in s.consumers && s.consumers[c].Trying?
      modifies this
      ensures Valid() && pending == old(pending) && token == old(token)
      ensures View() == CoreOf(Next(s, Try(c))) && Next(s, Try(c)).consumers[c] == if ok then Working(key) else Waiting
      ensures ok <==> old(items) != []
      ensures ok ==> key == old(items)[0] && items == old(items)[1..] && InProcess() == old(InProcess()) + {key}
    {
      if items == [] {
        return "", false;
      }
      assert items == [items[0]] + items[1..];
      key, ok := items[0], true;
      items := items[1..];
    }

    /** Done is meant for a key that was popped, and then acts as its consumer's finish; on a key still queued it
        breaks the queue's invariant. */
    method Done(raw: string, ghost s: State, ghost c: nat)
      requires Valid()
      modifies this
      ensures items == old(items) && token == old(token)
      ensures CoreOf(s) == old(View()) && c in s.consumers && s.consumers[c] == Working(TrimSpace(raw)) && TrimSpace(raw) != "" ==>
                View() == CoreOf(Next(s, Finish(c)))
      ensures pending == if TrimSpace(raw) == "" then old(pending) else old(pending) - {TrimSpace(raw)}
      ensures Valid() <==> TrimSpace(raw) == "" || TrimSpace(raw) !in items
      ensures TrimSpace(raw) in old(InProcess()) && TrimSpace(raw) != "" ==> Valid() && InProcess() == old(InProcess()) - {TrimSpace(raw)}
    {
      hide TrimSpace;
      var key := TrimSpace(raw);
      if key == "" {
        return;
      }
      pending := pending - {key};
    }
  }

  predicate NoRepeats(s: seq<Key>) {
    forall i, j :: 0 <= i < j < |s| ==> s[i] != s[j]
  }

  function Elems(s: seq<Key>): set<Key> {
    set x | x in s
  }

  // ---------------------------------------------------------------- interleaved callers

  /** A consumer's loop: about to try, waiting for a token, or working on a key it has not marked done. */
  datatype Consumer = Trying | Waiting | Working(key: Key)

  /** `senders` are enqueuers that have released the lock and are about to send a token. */
  datatype State = State(pending: set<Key>, items: seq<Key>, token: bool, senders: set<nat>, consumers: map<nat, Consumer>)

  datatype Step =
    | Enqueue(who: nat, raw: string)
    | Send(who: nat)
    | Join(c: nat)
    | Try(c: nat)
    | Wake(c: nat)
    | Finish(c: nat)
    | Cancel(c: nat)

  function Next(s: State, step: Step): State {
    match step
    case Enqueue(who, raw) =>
      var key := TrimSpace(raw);
      if key == "" || key in s.pending || who in s.senders then s
      else s.(pending := s.pending + {key}, items := s.items + [key], senders := s.senders + {who})
    case Send(who) => if who in s.senders then s.(token := true, senders := s.senders - {who}) else s
    case Join(c) => if c in s.consumers then s else s.(consumers := s.consumers[c := Trying])
    case Try(c) =>
      if c !in s.consumers || !s.consumers[c].Trying? then s
      else if s.items == [] then s.(consumers := s.consumers[c := Waiting])
      else s.(items := s.items[1..], consumers := s.consumers[c := Working(s.items[0])])
    case Wake(c) =>
      if c in s.consumers && s.consumers[c].Waiting? && s.token then s.(token := false, consumers := s.consumers[c := Trying]) else s
    case Finish(c) =>
      if c in s.consumers && s.consumers[c].Working?
      then s.(pending := s.pending - {s.consumers[c].key}, consumers := s.consumers[c := Trying]) else s
    case Cancel(c) =>
      if c in s.consumers && s.consumers[c].Waiting? then s.(consumers := s.consumers - {c}) else s
  }

  function Run(s: State, steps: seq<Step>): State {
    if steps == [] then s else Next(Run(s, steps[..|steps| - 1]), steps[|steps| - 1])
  }

  const EMPTY := State({}, [], false, {}, map[])

  /** Queued keys are distinct; every pending key is queued or in the hands of exactly one consumer. */
  predicate Accounted(s: State) {
    && NoRepeats(s.items)
    && (forall k :: k in s.items ==> k in s.pending)
    && (forall c :: c in s.consumers && s.consumers[c].Working? ==> s.consumers[c].key in s.pending && s.consumers[c].key !in s.items)
    && (forall c, d :: c in s.consumers && d in s.consumers && s.consumers[c].Working? && s.consumers[d].Working? && c != d ==>
          s.consumers[c].key != s.consumers[d].key)
    && (forall k :: k in s.pending && k !in s.items ==> HeldBySome(s, k))
  }

  predicate HeldBySome(s: State, k: Key) {
    exists c :: c in s.consumers && s.consumers[c] == Working(k)
  }

  /** If nobody is trying or working while keys are queued, a token is there or about to be sent. */
  predicate Woken(s: State) {
    s.items != [] && (forall c :: c in s.consumers ==> s.consumers[c].Waiting?) ==> s.token || s.senders != {}
  }

  lemma TryAccounted(s: State, c: nat)
    requires Accounted(s)
    ensures Accounted(Next(s, Try(c)))
  {
    if c in s.consumers && s.consumers[c].Trying? && s.items != [] {
      var t, k := Next(s, Try(c)), s.items[0];
      assert s.items == [k] + t.items;
      assert t.consumers[c] == Working(k);
      forall x | x in t.pending && x !in t.items ensures HeldBySome(t, x) {
        if x != k {
          var d :| d in s.consumers && s.consumers[d] == Working(x);
          assert t.consumers[d] == Working(x);
        }
      }
    } else {
      SameHolders(s, Next(s, Try(c)));
    }
  }

  /** Steps that move no key keep the account. */
  lemma SameHolders(s: State, t: State)
    requires Accounted(s) && t.pending == s.pending && t.items == s.items
    requires forall c, k :: (c in t.consumers && t.consumers[c] == Working(k)) <==> (c in s.consumers && s.consumers[c] == Working(k))
    ensures Accounted(t)
  {
    forall c | c in t.consumers && t.consumers[c].Working?
      ensures c in s.consumers && s.consumers[c] == t.consumers[c]
    {
      assert t.consumers[c] == Working(t.consumers[c].key);
    }
    forall k | k in t.pending && k !in t.items ensures HeldBySome(t, k) {
      var c :| c in s.consumers && s.consumers[c] == Working(k);
      assert c in t.consumers && t.consumers[c] == Working(k);
    }
  }

  lemma EnqueueAccounted(s: State, who: nat, raw: string)
    requires Accounted(s)
    ensures Accounted(Next(s, Enqueue(who, raw)))
  {
    hide TrimSpace;
    var t := Next(s, Enqueue(who, raw));
    forall k | k in t.pending && k !in t.items ensures HeldBySome(t, k) {
      assert HeldBySome(s, k);
    }
  }

  lemma FinishAccounted(s: State, c: nat)
    requires Accounted(s)
    ensures Accounted(Next(s, Finish(c)))
  {
    var t := Next(s, Finish(c));
    forall k | k in t.pending && k !in t.items ensures HeldBySome(t, k) {
      var d :| d in s.consumers && s.consumers[d] == Working(k);
      assert d in t.consumers && t.consumers[d] == Working(k);
    }
  }

  lemma NextAccounted(s: State, step: Step)
    requires Accounted(s)
    ensures Accounted(Next(s, step))
  {
    match step
    case Enqueue(who, raw) => EnqueueAccounted(s, who, raw);
    case Try(c) => TryAccounted(s, c);
    case Finish(c) => FinishAccounted(s, c);
    case Send(_) => SameHolders(s, Next(s, step));
    case Join(_) => SameHolders(s, Next(s, step));
    case Wake(_) => SameHolders(s, Next(s, step));
    case Cancel(_) => SameHolders(s, Next(s, step));
  }

  lemma NextWoken(s: State, step: Step)
    requires Woken(s)
    ensures Woken(Next(s, step))
  {
    hide TrimSpace;
    var t := Next(s, step);
    match step
    case Cancel(c) =>
      assert forall d :: d in s.consumers && d != c ==> d in t.consumers && t.consumers[d] == s.consumers[d];
    case Join(c) => assert t == s || !t.consumers[c].Waiting?;
    case Try(c) => assert t == s || t.items == [] || !t.consumers[c].Waiting?;
    case Wake(c) => assert t == s || !t.consumers[c].Waiting?;
    case Finish(c) => assert t == s || !t.consumers[c].Waiting?;
    case Enqueue(_, _) =>
    case Send(_) =>
  }

  /** In every reachable state: the queued keys are distinct, every pending key is queued or held by exactly
      one consumer, and if all consumers wait while keys are queued, a token is there or on its way. */
  lemma {:induction false} Reachable(steps: seq<Step>)
    ensures Accounted(Run(EMPTY, steps)) && Woken(Run(EMPTY, steps))
  {
    hide Next, Accounted, Woken;
    if steps == [] {
      EmptyState();
    } else {
      Reachable(steps[..|steps| - 1]);
      NextAccounted(Run(EMPTY, steps[..|steps| - 1]), steps[|steps| - 1]);
      NextWoken(Run(EMPTY, steps[..|steps| - 1]), steps[|steps| - 1]);
    }
  }

  lemma EmptyState()
    ensures Accounted(EMPTY) && Woken(EMPTY)
  {
  }

  /** With one consumer: blocked with keys queued means a token is there or an enqueuer is about to send one. */
  lemma SingleConsumerWoken(steps: seq<Step>, c: nat)
    requires var s := Run(EMPTY, steps); s.consumers.Keys == {c} && s.consumers[c].Waiting? && s.items != []
    ensures Run(EMPTY, steps).token || Run(EMPTY, steps).senders != {}
  {
    hide Run;
    Reachable(steps);
  }

  /** With two consumers one of them can stay blocked beside a queued key and no token: two keys that are
      enqueued while both wait leave a single token. */
  lemma SecondConsumerSleeps(a: Key, b: Key) returns (steps: seq<Step>)
    requires TrimSpace(a) == a && TrimSpace(b) == b && a != "" && b != "" && a != b
    ensures var s := Run(EMPTY, steps);
            2 in s.consumers && s.consumers[2].Waiting? && s.items == [b] && !s.token && s.senders == {}
  {
    hide Run, TrimSpace;
    steps := BothWait();
    steps := Then(steps, Enqueue(3, a));
    steps := Then(steps, Send(3));
    assert Run(EMPTY, steps) == State({a}, [a], true, {}, map[1 := Waiting, 2 := Waiting]);
    steps := Then(steps, Enqueue(3, b));
    steps := Then(steps, Send(3));
    assert Run(EMPTY, steps) == State({a, b}, [a, b], true, {}, map[1 := Waiting, 2 := Waiting]);
    steps := Then(steps, Wake(1));
    steps := Then(steps, Try(1));
    assert Run(EMPTY, steps) == State({a, b}, [b], false, {}, map[1 := Working(a), 2 := Waiting]);
  }

  lemma BothWait() returns (steps: seq<Step>)
    ensures Run(EMPTY, steps) == State({}, [], false, {}, map[1 := Waiting, 2 := Waiting])
  {
    hide Run, TrimSpace;
    NoSteps();
    steps := Then([], Join(1));
    steps := Then(steps, Try(1));
    assert Run(EMPTY, steps) == State({}, [], false, {}, map[1 := Waiting]);
    steps := Then(steps, Join(2));
    steps := Then(steps, Try(2));
  }

  lemma Then(steps: seq<Step>, step: Step) returns (more: seq<Step>)
    ensures Run(EMPTY, more) == Next(Run(EMPTY, steps), step)
  {
    more := steps + [step];
    assert more[..|more| - 1] == steps;
  }

  lemma NoSteps()
    ensures Run(EMPTY, []) == EMPTY
  {
  }
}
