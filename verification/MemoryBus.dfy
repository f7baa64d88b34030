/** The in-memory event bus: a bounded history of published events, subscribers that start from a
    snapshot of it, and live delivery to every subscriber whose filter matches.

    Comparison of filter fields ignores case and surrounding blanks. `canon` gives the representative
    of a field under that comparison, so two fields are equal exactly when it maps them to one string. */
module MemoryBus {

  datatype Fields = Fields(source: string, kindOfEvent: string, kind: string, name: string, namespace: string)

  datatype Event = Event(id: nat, fields: Fields, data: string)

  datatype Filter = Filter(sinceID: nat, fields: Fields)

  predicate FieldMatches(canon: string -> string, wanted: string, actual: string) {
    canon(wanted) == canon("") || canon(wanted) == canon(actual)
  }

  predicate Matches(canon: string -> string, e: Event, f: Filter) {
    && FieldMatches(canon, f.fields.source, e.fields.source)
    && FieldMatches(canon, f.fields.kindOfEvent, e.fields.kindOfEvent)
    && FieldMatches(canon, f.fields.kind, e.fields.kind)
    && FieldMatches(canon, f.fields.name, e.fields.name)
    && FieldMatches(canon, f.fields.namespace, e.fields.namespace)
  }

  /** The filter asks for something else in a field. */
  predicate Differs(canon: string -> string, wanted: string, actual: string) {
    canon(wanted) !in {canon(""), canon(actual)}
  }

  /** An event is withheld exactly if some field of it is not what the filter asks for there. */
  lemma WithheldIff(canon: string -> string, e: Event, f: Filter)
    ensures !Matches(canon, e, f)
       <==> SomeDiffers(canon, f.fields, e.fields)
  {
  }

  lemma TargetsIff(canon: string -> string, e: Event, filters: map<nat, Filter>)
    ensures forall k :: k in filters ==> (!Matches(canon, e, filters[k]) <==> SomeDiffers(canon, filters[k].fields, e.fields))
  {
    hide Matches, SomeDiffers;
    forall k | k in filters ensures !Matches(canon, e, filters[k]) <==> SomeDiffers(canon, filters[k].fields, e.fields) {
      WithheldIff(canon, e, filters[k]);
    }
  }

  predicate SomeDiffers(canon: string -> string, wanted: Fields, actual: Fields) {
    || Differs(canon, wanted.source, actual.source) || Differs(canon, wanted.kindOfEvent, actual.kindOfEvent)
    || Differs(canon, wanted.kind, actual.kind) || Differs(canon, wanted.name, actual.name)
    || Differs(canon, wanted.namespace, actual.namespace)
  }

  /** The matching events of a list, in order. */
  function Matching(canon: string -> string, es: seq<Event>, f: Filter): seq<Event> {
    if es == [] then []
    else
      var before, last := Matching(canon, es[..|es| - 1], f), es[|es| - 1];
      if Matches(canon, last, f) then before + [last] else before
  }

  lemma {:induction false} MatchingConcat(canon: string -> string, a: seq<Event>, b: seq<Event>, f: Filter)
    ensures Matching(canon, a + b, f) == Matching(canon, a, f) + Matching(canon, b, f)
  {
    if b == [] {
      assert a + b == a;
    } else {
      MatchingConcat(canon, a, b[..|b| - 1], f);
      assert (a + b)[..|a + b| - 1] == a + b[..|b| - 1];
    }
  }

  // ---------------------------------------------------------------- the bus as a value

  /** A subscription: its filter and what it has been offered, the snapshot first. `joined` is the number
      of events published before it. */
  datatype Subscription = Subscription(filter: Filter, joined: nat, offered: seq<Event>)

  /** Everything about the bus that can be observed; `log` is all that was ever published. */
  datatype State = State(historyMax: nat, log: seq<Event>, history: seq<Event>, lastSub: nat, subs: map<nat, Subscription>)

  datatype Step = Publish(fields: Fields, data: string) | Subscribe(filter: Filter) | Remove(sub: nat)

  function Last<T>(s: seq<T>, n: nat): seq<T> {
    if |s| <= n then s else s[|s| - n..]
  }

  function Offer(canon: string -> string, sub: Subscription, e: Event): (r: Subscription)
    ensures r.filter == sub.filter && r.joined == sub.joined
  {
    if Matches(canon, e, sub.filter) then sub.(offered := sub.offered + [e]) else sub
  }

  /** The history events after the filter's cursor. */
  function Since(history: seq<Event>, sinceID: nat): seq<Event> {
    if history == [] then []
    else
      var before, last := Since(history[..|history| - 1], sinceID), history[|history| - 1];
      if last.id <= sinceID then before else before + [last]
  }

  function Next(canon: string -> string, s: State, step: Step): State {
    match step
    case Publish(fields, data) =>
      var e := Event(|s.log| + 1, fields, data);
      s.(log := s.log + [e], history := Last(s.history + [e], s.historyMax),
         subs := map k | k in s.subs :: Offer(canon, s.subs[k], e))
    case Subscribe(filter) =>
      var snapshot := Matching(canon, Since(s.history, filter.sinceID), filter);
      s.(lastSub := s.lastSub + 1, subs := s.subs[s.lastSub + 1 := Subscription(filter, |s.log|, snapshot)])
    case Remove(sub) => s.(subs := s.subs - {sub})
  }

  function Run(canon: string -> string, s: State, steps: seq<Step>): State {
    if steps == [] then s else Next(canon, Run(canon, s, steps[..|steps| - 1]), steps[|steps| - 1])
  }

  /** A new bus; a history bound that is not positive becomes 2048. */
  function Fresh(historyMax: int): State {
    State(if historyMax <= 0 then 2048 else historyMax, [], [], 0, map[])
  }

  // ---------------------------------------------------------------- every reachable state

  /** The log position from which a subscription sees everything. */
  function From(historyMax: nat, sub: Subscription): nat {
    var since := if sub.filter.sinceID <= sub.joined then sub.filter.sinceID else sub.joined;
    if sub.joined - since <= historyMax then since else sub.joined - historyMax
  }

  ghost predicate Numbered(log: seq<Event>) {
    forall i :: 0 <= i < |log| ==> log[i].id == i + 1
  }

  /** The subscription has been offered every matching event from its position on. */
  ghost predicate Offered(canon: string -> string, historyMax: nat, log: seq<Event>, sub: Subscription) {
    sub.joined <= |log| && sub.offered == Matching(canon, log[From(historyMax, sub)..], sub.filter)
  }

  ghost predicate Inv(canon: string -> string, s: State) {
    && Numbered(s.log)
    && s.history == Last(s.log, s.historyMax)
    && (forall k :: k in s.subs ==> k <= s.lastSub && Offered(canon, s.historyMax, s.log, s.subs[k]))
  }

  lemma LastOfAppend<T>(s: seq<T>, x: T, n: nat)
    requires n > 0
    ensures Last(Last(s, n) + [x], n) == Last(s + [x], n)
  {
  }

  lemma SinceSnoc(es: seq<Event>, e: Event, since: nat)
    ensures Since(es + [e], since) == if e.id <= since then Since(es, since) else Since(es, since) + [e]
  {
  }

  lemma {:induction false} SinceNone(es: seq<Event>, since: nat)
    requires forall i :: 0 <= i < |es| ==> es[i].id <= since
    ensures Since(es, since) == []
  {
    if es != [] {
      SinceNone(es[..|es| - 1], since);
    }
  }

  lemma {:induction false} SinceParts(seen: seq<Event>, fresher: seq<Event>, since: nat)
    requires forall i :: 0 <= i < |seen| ==> seen[i].id <= since
    requires forall i :: 0 <= i < |fresher| ==> fresher[i].id > since
    ensures Since(seen + fresher, since) == fresher
    decreases |fresher|
  {
    hide Since;
    if fresher == [] {
      assert seen + fresher == seen;
      SinceNone(seen, since);
    } else {
      var init, last := fresher[..|fresher| - 1], fresher[|fresher| - 1];
      SinceParts(seen, init, since);
      assert seen + fresher == (seen + init) + [last];
      SinceSnoc(seen + init, last, since);
    }
  }

  /** On consecutive numbers, the events after a cursor are a suffix. */
  lemma SinceIsSuffix(log: seq<Event>, lo: nat, hi: nat, since: nat, from: nat)
    requires Numbered(log) && lo <= hi <= |log|
    requires from == if since <= lo then lo else if since <= hi then since else hi
    ensures Since(log[lo..hi], since) == log[from..hi]
  {
    hide Since;
    assert log[lo..hi] == log[lo..from] + log[from..hi];
    SinceParts(log[lo..from], log[from..hi], since);
  }

  lemma SnapshotIsSuffix(log: seq<Event>, historyMax: nat, sub: Subscription)
    requires Numbered(log) && sub.joined == |log|
    ensures Since(Last(log, historyMax), sub.filter.sinceID) == log[From(historyMax, sub)..]
  {
    var n := |log|;
    var lo := if n <= historyMax then 0 else n - historyMax;
    assert Last(log, historyMax) == log[lo..n];
    SinceIsSuffix(log, lo, n, sub.filter.sinceID, From(historyMax, sub));
  }

  lemma SubscribeInv(canon: string -> string, s: State, f: Filter)
    requires Inv(canon, s)
    ensures Inv(canon, Next(canon, s, Subscribe(f)))
  {
    hide Matching, Since, Last, From;
    SnapshotIsSuffix(s.log, s.historyMax, Subscription(f, |s.log|, Matching(canon, Since(s.history, f.sinceID), f)));
    SamePlace(s.historyMax, f, |s.log|);
  }

  lemma SamePlace(historyMax: nat, f: Filter, joined: nat)
    ensures forall a, b :: From(historyMax, Subscription(f, joined, a)) == From(historyMax, Subscription(f, joined, b)) <= joined
  {
  }

  lemma MatchingSnoc(canon: string -> string, es: seq<Event>, e: Event, f: Filter)
    ensures Matching(canon, es + [e], f) == if Matches(canon, e, f) then Matching(canon, es, f) + [e] else Matching(canon, es, f)
  {
  }

  lemma OfferKeeps(canon: string -> string, historyMax: nat, log: seq<Event>, sub: Subscription, e: Event)
    requires Offered(canon, historyMax, log, sub)
    ensures Offered(canon, historyMax, log + [e], Offer(canon, sub, e))
  {
    hide Matches, Matching;
    var from := From(historyMax, sub);
    assert (log + [e])[from..] == log[from..] + [e];
    MatchingSnoc(canon, log[from..], e, sub.filter);
  }

  lemma PublishInv(canon: string -> string, s: State, fields: Fields, data: string)
    requires Inv(canon, s) && s.historyMax > 0
    ensures Inv(canon, Next(canon, s, Publish(fields, data)))
  {
    hide Offered, Offer, Last;
    var e := Event(|s.log| + 1, fields, data);
    LastOfAppend(s.log, e, s.historyMax);
    forall k | k in s.subs ensures Offered(canon, s.historyMax, s.log + [e], Offer(canon, s.subs[k], e)) {
      OfferKeeps(canon, s.historyMax, s.log, s.subs[k], e);
    }
  }

  lemma NextInv(canon: string -> string, s: State, step: Step)
    requires Inv(canon, s) && s.historyMax > 0
    ensures Inv(canon, Next(canon, s, step)) && Next(canon, s, step).historyMax == s.historyMax
  {
    hide Offered, Offer, Last, Matching;
    match step
    case Publish(fields, data) => PublishInv(canon, s, fields, data);
    case Subscribe(f) => SubscribeInv(canon, s, f);
    case Remove(_) =>
  }

  /** At every reachable state the history is the last events published, numbered without gaps, and each
      subscription has been offered every matching event from a fixed position on. */
  lemma {:induction false} Reachable(canon: string -> string, historyMax: int, steps: seq<Step>)
    ensures Inv(canon, Run(canon, Fresh(historyMax), steps))
    ensures Run(canon, Fresh(historyMax), steps).historyMax == Fresh(historyMax).historyMax
  {
    if steps != [] {
      Reachable(canon, historyMax, steps[..|steps| - 1]);
      NextInv(canon, Run(canon, Fresh(historyMax), steps[..|steps| - 1]), steps[|steps| - 1]);
    }
  }

  /** A subscription that starts at an earlier LatestID has been offered exactly the matching events after
      it, each once and in order, if and only if no matching event had left the history in between. In
      particular that holds if at most historyMax events intervened. */
  lemma OfferedExactly(canon: string -> string, historyMax: int, steps: seq<Step>, k: nat)
    requires k in Run(canon, Fresh(historyMax), steps).subs
    requires var sub := Run(canon, Fresh(historyMax), steps).subs[k]; sub.filter.sinceID <= sub.joined
    ensures var s := Run(canon, Fresh(historyMax), steps);
            var sub := s.subs[k];
            var since, lost := sub.filter.sinceID, sub.joined - s.historyMax;
            && sub.joined <= |s.log|
            && (sub.offered == Matching(canon, s.log[since..], sub.filter)
                <==> (since < lost ==> Matching(canon, s.log[since..lost], sub.filter) == []))
            && (sub.joined - since <= s.historyMax ==> sub.offered == Matching(canon, s.log[since..], sub.filter))
  {
    hide Run, Matching;
    Reachable(canon, historyMax, steps);
    var s := Run(canon, Fresh(historyMax), steps);
    var sub := s.subs[k];
    assert Offered(canon, s.historyMax, s.log, sub);
    var since, lost := sub.filter.sinceID, sub.joined - s.historyMax;
    if since < lost {
      assert s.log[since..] == s.log[since..lost] + s.log[lost..];
      MatchingConcat(canon, s.log[since..lost], s.log[lost..], sub.filter);
      LongerUnlessEmpty(Matching(canon, s.log[since..lost], sub.filter), Matching(canon, s.log[lost..], sub.filter));
    }
  }

  lemma LongerUnlessEmpty<T>(a: seq<T>, b: seq<T>)
    ensures b == a + b <==> a == []
  {
  }

  /** No subscription is offered an event twice, in its snapshot and live or otherwise. */
  lemma OfferedOnce(canon: string -> string, historyMax: int, steps: seq<Step>, k: nat, i: nat, j: nat)
    requires k in Run(canon, Fresh(historyMax), steps).subs
    requires i < j < |Run(canon, Fresh(historyMax), steps).subs[k].offered|
    ensures var offered := Run(canon, Fresh(historyMax), steps).subs[k].offered; offered[i].id < offered[j].id
  {
    hide Run, Matching;
    Reachable(canon, historyMax, steps);
    var s := Run(canon, Fresh(historyMax), steps);
    assert Offered(canon, s.historyMax, s.log, s.subs[k]);
    MatchingIncreases(canon, s.log[From(s.historyMax, s.subs[k])..], s.subs[k].filter);
  }

  ghost predicate IncreasingIDs(es: seq<Event>) {
    forall i, j :: 0 <= i < j < |es| ==> es[i].id < es[j].id
  }

  ghost predicate AllBelow(es: seq<Event>, id: nat) {
    forall i :: 0 <= i < |es| ==> es[i].id < id
  }

  lemma {:induction false} MatchingBelow(canon: string -> string, es: seq<Event>, f: Filter, id: nat)
    requires AllBelow(es, id)
    ensures AllBelow(Matching(canon, es, f), id)
  {
    hide Matches;
    if es != [] {
      MatchingBelow(canon, es[..|es| - 1], f, id);
    }
  }

  lemma {:induction false} MatchingIncreases(canon: string -> string, es: seq<Event>, f: Filter)
    requires IncreasingIDs(es)
    ensures IncreasingIDs(Matching(canon, es, f))
  {
    hide Matches;
    if es != [] {
      var init, last := es[..|es| - 1], es[|es| - 1];
      MatchingIncreases(canon, init, f);
      MatchingBelow(canon, init, f, last.id);
    }
  }

  // ---------------------------------------------------------------- the bus as an object

  class Bus {
    const canon: string -> string
    const historyMax: nat
    var nextID: nat
    var nextSubID: nat
    var history: seq<Event>
    var filters: map<nat, Filter>
    ghost var log: seq<Event>
    ghost var subscriptions: map<nat, Subscription>

    ghost function View(): State
      reads this
    {
      State(historyMax, log, history, nextSubID, subscriptions)
    }

    ghost predicate Valid()
      reads this
    {
      && historyMax > 0 && nextID == |log| && Inv(canon, View())
      && filters.Keys == subscriptions.Keys
      && forall k :: k in filters ==> filters[k] == subscriptions[k].filter
    }

    constructor (canon: string -> string, historyMax: int)
      ensures Valid() && View() == Fresh(historyMax) && this.canon == canon
      ensures this.historyMax == if historyMax <= 0 then 2048 else historyMax
    {
      this.canon := canon;
      this.historyMax := if historyMax <= 0 then 2048 else historyMax;
      nextID, nextSubID, history, filters := 0, 0, [], map[];
      log, subscriptions := [], map[];
    }

    /** The subscribers an event goes to. */
    method Targets(evt: Event) returns (targets: set<nat>)
      ensures targets == set k | k in filters && Matches(canon, evt, filters[k])
    {
      hide Matches;
      targets := {};
      var todo := filters.Keys;
      while todo != {}
        invariant todo <= filters.Keys
        invariant targets == set k | k in filters && k !in todo && Matches(canon, evt, filters[k])
      {
        var k :| k in todo;
        if Matches(canon, evt, filters[k]) {
          targets := targets + {k};
        }
        todo := todo - {k};
      }
    }

    method Publish(fields: Fields, data: string) returns (evt: Event, targets: set<nat>)
      requires Valid()
      modifies this
      ensures Valid() && View() == Next(canon, old(View()), Step.Publish(fields, data))
      ensures evt.id == nextID == old(nextID) + 1 && log == old(log) + [evt]
      ensures filters == old(filters) && targets == set k | k in filters && Matches(canon, evt, filters[k])
      ensures forall k :: k in filters ==> (k !in targets <==> SomeDiffers(canon, filters[k].fields, fields))
    {
      hide Inv, Offer, Matches, SomeDiffers;
      assert history == View().history && |log| == nextID;
      PublishInv(canon, View(), fields, data);
      nextID := nextID + 1;
      evt := Event(nextID, fields, data);
      history := history + [evt];
      if |history| > historyMax {
        history := history[|history| - historyMax..];
      }
      targets := Targets(evt);
      TargetsIff(canon, evt, filters);
      log := log + [evt];
      subscriptions := map k | k in subscriptions :: Offer(canon, subscriptions[k], evt);
    }

    /** The history events a new subscriber starts with. */
    method Snapshot(filter: Filter) returns (snapshot: seq<Event>)
      ensures snapshot == Matching(canon, Since(history, filter.sinceID), filter)
    {
      hide Matches;
      snapshot := [];
      for i := 0 to |history|
        invariant snapshot == Matching(canon, Since(history[..i], filter.sinceID), filter)
      {
        assert history[..i + 1][..i] == history[..i];
        var evt := history[i];
        ghost var before := Since(history[..i], filter.sinceID);
        assert (before + [evt])[..|before|] == before;
        if evt.id <= filter.sinceID {
          continue;
        }
        if !Matches(canon, evt, filter) {
          continue;
        }
        snapshot := snapshot + [evt];
      }
      assert history[..|history|] == history;
    }

    method Subscribe(filter: Filter) returns (id: nat, snapshot: seq<Event>)
      requires Valid()
      modifies this
      ensures Valid() && View() == Next(canon, old(View()), Step.Subscribe(filter))
      ensures id == nextSubID && id !in old(filters) && id in subscriptions && snapshot == subscriptions[id].offered
    {
      hide Offered, Matching, Since;
      SubscribeInv(canon, View(), filter);
      nextSubID := nextSubID + 1;
      id := nextSubID;
      filters := filters[id := filter];
      snapshot := Snapshot(filter);
      subscriptions := subscriptions[id := Subscription(filter, |log|, snapshot)];
    }

    method LatestID() returns (id: nat)
      requires Valid()
      ensures id == |log| && (log != [] ==> id == log[|log| - 1].id)
    {
      id := nextID;
    }

    method RemoveSubscriber(id: nat)
      requires Valid()
      modifies this
      ensures Valid() && View() == Next(canon, old(View()), Remove(id))
    {
      hide Offered;
      filters := filters - {id};
      subscriptions := subscriptions - {id};
    }
  }
}
