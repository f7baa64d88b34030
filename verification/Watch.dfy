/** The polled watch: every poll compares a snapshot of the resources with what was seen before and sends
    the difference as added, updated and deleted events.

    `canon` gives a name's representative under the case-insensitive comparison of the filters. */
module Watch {
  import opened Strings

  datatype Record = Record(namespace: string, name: string, version: int, resource: string)

  /** What a watch asks for: versions above `sinceRV`, and optionally one name and one namespace. */
  datatype Options = Options(canon: string -> string, sinceRV: int, nameFilter: string, namespaceFilter: Option<string>)

  type Versions = map<string, int>

  datatype WatchEvent =
    | Added(record: Record)
    | Updated(record: Record)
    | Deleted(namespace: string, name: string, version: int)

  predicate Passes(o: Options, namespace: string, name: string) {
    && (o.namespaceFilter.None? || o.canon(namespace) == o.canon(o.namespaceFilter.value))
    && (o.nameFilter == "" || o.canon(o.nameFilter) == o.canon(name))
  }

  function KeyOf(namespace: string, name: string): string {
    namespace + "/" + name
  }

  /** strings.SplitN(key, "/", 2); a key without a slash is a name alone. */
  function SplitKey(key: string): (string, string) {
    if '/' !in key then ("", key)
    else if key[0] == '/' then ("", key[1..])
    else
      assert key == [key[0]] + key[1..];
      var (namespace, name) := SplitKey(key[1..]);
      ([key[0]] + namespace, name)
  }

  lemma {:induction false} SplitKeyOf(namespace: string, name: string)
    requires '/' !in namespace
    ensures SplitKey(KeyOf(namespace, name)) == (namespace, name)
  {
    var key := KeyOf(namespace, name);
    assert key[|namespace|] == '/';
    if namespace == "" {
      assert key[1..] == name;
    } else {
      SplitKeyOf(namespace[1..], name);
      assert key[1..] == KeyOf(namespace[1..], name);
      assert namespace == [namespace[0]] + namespace[1..];
    }
  }

  /** Namespaces have no slash and no two records share a key. */
  predicate Proper(records: seq<Record>) {
    && (forall i :: 0 <= i < |records| ==> '/' !in records[i].namespace)
    && (forall i, j :: 0 <= i < j < |records| ==>
          KeyOf(records[i].namespace, records[i].name) != KeyOf(records[j].namespace, records[j].name))
  }

  /** The filtered snapshot: the version of every record that passes. */
  function Visible(o: Options, records: seq<Record>): Versions {
    if records == [] then map[]
    else
      var init, last := records[..|records| - 1], records[|records| - 1];
      if Passes(o, last.namespace, last.name)
      then Visible(o, init)[KeyOf(last.namespace, last.name) := last.version]
      else Visible(o, init)
  }

  /** The filtered snapshot has exactly the records of the namespace and of the name asked for, at their
      versions. */
  lemma {:induction false} VisibleExactly(o: Options, records: seq<Record>, key: string)
    requires Proper(records)
    ensures key in Visible(o, records)
       <==> exists j :: 0 <= j < |records| && key == KeyOf(records[j].namespace, records[j].name) && AskedFor(o, records[j])
    ensures forall j :: 0 <= j < |records| && AskedFor(o, records[j]) ==>
              KeyOf(records[j].namespace, records[j].name) in Visible(o, records)
              && Visible(o, records)[KeyOf(records[j].namespace, records[j].name)] == records[j].version
  {
    hide KeyOf;
    if records != [] {
      var init, last := records[..|records| - 1], records[|records| - 1];
      VisibleExactly(o, init, key);
      assert AskedFor(o, last) <==> Passes(o, last.namespace, last.name);
      if j :| 0 <= j < |init| && key == KeyOf(init[j].namespace, init[j].name) && AskedFor(o, init[j]) {
        assert records[j] == init[j];
      }
      if j :| 0 <= j < |records| && key == KeyOf(records[j].namespace, records[j].name) && AskedFor(o, records[j]) {
        assert j < |init| ==> init[j] == records[j];
      }
      assert forall j :: 0 <= j < |init| ==> records[j] == init[j];
    }
  }

  /** The namespace and the name are those asked for, if any are. */
  predicate AskedFor(o: Options, r: Record) {
    && (o.namespaceFilter.Some? ==> o.canon(o.namespaceFilter.value) == o.canon(r.namespace))
    && (o.nameFilter != "" ==> o.canon(r.name) == o.canon(o.nameFilter))
  }

  // ---------------------------------------------------------------- what a client makes of the events

  function Apply(view: Versions, e: WatchEvent): Versions {
    match e
    case Added(r) => view[KeyOf(r.namespace, r.name) := r.version]
    case Updated(r) => view[KeyOf(r.namespace, r.name) := r.version]
    case Deleted(namespace, name, _) => view - {KeyOf(namespace, name)}
  }

  function ApplyAll(view: Versions, es: seq<WatchEvent>): Versions {
    if es == [] then view else Apply(ApplyAll(view, es[..|es| - 1]), es[|es| - 1])
  }

  /** The poll sends `k`: it is new or changed, and above the requested version. */
  predicate Sends(o: Options, seen: Versions, next: Versions, k: string) {
    k in next && next[k] > o.sinceRV && !(k in seen && seen[k] == next[k])
  }

  /** The client's view once the changes are applied, key by key. */
  function WithChanges(o: Options, seen: Versions, next: Versions, view: Versions): Versions {
    map k | k in next.Keys + view.Keys && (Sends(o, seen, next, k) || k in view)
      :: if Sends(o, seen, next, k) then next[k] else view[k]
  }

  function Gone(seen: Versions, next: Versions): set<string> {
    seen.Keys - next.Keys
  }

  /** The client's view after a poll. */
  function NextView(o: Options, seen: Versions, next: Versions, view: Versions): Versions {
    WithChanges(o, seen, next, view) - Gone(seen, next)
  }

  /** Each event is warranted: added only for keys not seen, updated only for seen keys whose version
      changed, both only above the requested version, deleted only for keys that are gone. */
  predicate Warranted(o: Options, seen: Versions, next: Versions, e: WatchEvent) {
    match e
    case Added(r) => var k := KeyOf(r.namespace, r.name); Sends(o, seen, next, k) && next[k] == r.version && k !in seen
    case Updated(r) => var k := KeyOf(r.namespace, r.name); Sends(o, seen, next, k) && next[k] == r.version && k in seen
    case Deleted(namespace, name, v) => var k := KeyOf(namespace, name); k in seen && k !in next && seen[k] == v
  }

  predicate AllWarranted(o: Options, seen: Versions, next: Versions, es: seq<WatchEvent>) {
    forall i :: 0 <= i < |es| ==> Warranted(o, seen, next, es[i])
  }

  function EventKey(e: WatchEvent): string {
    match e
    case Added(r) => KeyOf(r.namespace, r.name)
    case Updated(r) => KeyOf(r.namespace, r.name)
    case Deleted(namespace, name, _) => KeyOf(namespace, name)
  }

  predicate OncePerKey(es: seq<WatchEvent>) {
    forall i, j :: 0 <= i < j < |es| ==> EventKey(es[i]) != EventKey(es[j])
  }

  /** What was seen came through the filter. */
  predicate FilteredKeys(o: Options, seen: Versions) {
    forall k :: k in seen ==> Passes(o, SplitKey(k).0, SplitKey(k).1) && KeyOf(SplitKey(k).0, SplitKey(k).1) == k
  }

  // ---------------------------------------------------------------- one poll

  lemma ApplyAllSnoc(view: Versions, es: seq<WatchEvent>, e: WatchEvent)
    ensures ApplyAll(view, es + [e]) == Apply(ApplyAll(view, es), e)
  {
  }

  /** What the first loop sends. */
  function Changes(o: Options, seen: Versions, records: seq<Record>): seq<WatchEvent> {
    if records == [] then []
    else
      var before, rec := Changes(o, seen, records[..|records| - 1]), records[|records| - 1];
      var k := KeyOf(rec.namespace, rec.name);
      if !Passes(o, rec.namespace, rec.name) || rec.version <= o.sinceRV || (k in seen && seen[k] == rec.version) then before
      else before + [if k in seen then Updated(rec) else Added(rec)]
  }

  lemma WithChangesStep(o: Options, seen: Versions, next: Versions, view: Versions, k: string, v: int)
    requires k !in next
    ensures WithChanges(o, seen, next[k := v], view)
         == if v > o.sinceRV && !(k in seen && seen[k] == v) then WithChanges(o, seen, next, view)[k := v]
            else WithChanges(o, seen, next, view)
  {
    var grown := next[k := v];
    forall x ensures x != k ==> (Sends(o, seen, grown, x) <==> Sends(o, seen, next, x)) {
    }
  }

  /** Changes for a growing snapshot: all warranted, none a deletion, one per key. */
  ghost predicate GoodChanges(o: Options, seen: Versions, next: Versions, es: seq<WatchEvent>) {
    AllWarranted(o, seen, next, es) && OncePerKey(es) && forall i :: 0 <= i < |es| ==> !es[i].Deleted?
  }

  lemma GoodChangesStep(o: Options, seen: Versions, next: Versions, rec: Record, es: seq<WatchEvent>)
    requires var k := KeyOf(rec.namespace, rec.name); k !in next && GoodChanges(o, seen, next, es)
    ensures var k := KeyOf(rec.namespace, rec.name);
            var e := if k in seen then Updated(rec) else Added(rec);
            && GoodChanges(o, seen, next[k := rec.version], es)
            && (rec.version > o.sinceRV && !(k in seen && seen[k] == rec.version) ==>
                  GoodChanges(o, seen, next[k := rec.version], es + [e]))
  {
  }

  lemma {:induction false} VisibleKeys(o: Options, records: seq<Record>)
    requires Proper(records)
    ensures FilteredKeys(o, Visible(o, records))
    ensures forall k :: k in Visible(o, records) ==>
              exists j :: 0 <= j < |records| && k == KeyOf(records[j].namespace, records[j].name)
  {
    hide Passes, KeyOf, SplitKey;
    if records != [] {
      var init, last := records[..|records| - 1], records[|records| - 1];
      VisibleKeys(o, init);
      SplitKeyOf(last.namespace, last.name);
      forall k | k in Visible(o, records)
        ensures exists j :: 0 <= j < |records| && k == KeyOf(records[j].namespace, records[j].name)
      {
        if k in Visible(o, init) {
          var j :| 0 <= j < |init| && k == KeyOf(init[j].namespace, init[j].name);
          assert k == KeyOf(records[j].namespace, records[j].name);
        } else {
          assert k == KeyOf(records[|init|].namespace, records[|init|].name);
        }
      }
    }
  }

  /** The changes of one poll: each is warranted, and together they bring the client's view forward. */
  lemma {:induction false} ChangesApplied(o: Options, seen: Versions, records: seq<Record>, view: Versions)
    requires Proper(records)
    ensures var es := Changes(o, seen, records);
            && GoodChanges(o, seen, Visible(o, records), es)
            && ApplyAll(view, es) == WithChanges(o, seen, Visible(o, records), view)
  {
    hide Passes, KeyOf, GoodChanges, WithChanges;
    if records == [] {
      NoChanges(o, seen, view);
    } else {
      var init, rec := records[..|records| - 1], records[|records| - 1];
      assert Proper(init);
      ChangesApplied(o, seen, init, view);
      if Passes(o, rec.namespace, rec.name) {
        var k, next, before := KeyOf(rec.namespace, rec.name), Visible(o, init), Changes(o, seen, init);
        NewKey(o, records);
        WithChangesStep(o, seen, next, view, k, rec.version);
        GoodChangesStep(o, seen, next, rec, before);
        ApplyAllSnoc(view, before, if k in seen then Updated(rec) else Added(rec));
      }
    }
  }

  lemma NoChanges(o: Options, seen: Versions, view: Versions)
    ensures WithChanges(o, seen, map[], view) == view && GoodChanges(o, seen, map[], [])
  {
  }

  lemma NewKey(o: Options, records: seq<Record>)
    requires Proper(records) && records != []
    ensures var last := records[|records| - 1]; KeyOf(last.namespace, last.name) !in Visible(o, records[..|records| - 1])
  {
    hide KeyOf;
    VisibleKeys(o, records[..|records| - 1]);
  }

  method SendChanges(o: Options, records: seq<Record>, seen: Versions) returns (events: seq<WatchEvent>, next: Versions)
    ensures next == Visible(o, records) && events == Changes(o, seen, records)
  {
    hide Passes, KeyOf;
    events, next := [], map[];
    for i := 0 to |records|
      invariant next == Visible(o, records[..i]) && events == Changes(o, seen, records[..i])
    {
      assert records[..i + 1][..i] == records[..i];
      var rec := records[i];
      if !Passes(o, rec.namespace, rec.name) {
        continue;
      }
      var recordKey := KeyOf(rec.namespace, rec.name);
      next := next[recordKey := rec.version];
      if rec.version <= o.sinceRV {
        continue;
      }
      if recordKey in seen && seen[recordKey] == rec.version {
        continue;
      }
      events := events + [if recordKey in seen then Updated(rec) else Added(rec)];
    }
    assert records[..|records|] == records;
  }

  lemma GoodParts(o: Options, seen: Versions, next: Versions, es: seq<WatchEvent>)
    requires GoodChanges(o, seen, next, es)
    ensures AllWarranted(o, seen, next, es) && OncePerKey(es)
    ensures forall i :: 0 <= i < |es| ==> EventKey(es[i]) in next
  {
    hide KeyOf;
    forall i | 0 <= i < |es| ensures EventKey(es[i]) in next {
      assert Warranted(o, seen, next, es[i]);
    }
  }

  lemma GoneMore(view: Versions, gone: set<string>, todo: set<string>, key: string)
    requires key in todo
    ensures view - (gone - (todo - {key})) == if key in gone then (view - (gone - todo)) - {key} else view - (gone - todo)
  {
    assert gone - (todo - {key}) == if key in gone then (gone - todo) + {key} else gone - todo;
  }

  /** One more deletion is warranted and the only event of its key. */
  lemma DeletedMore(o: Options, seen: Versions, next: Versions, es: seq<WatchEvent>, key: string, e: WatchEvent)
    requires AllWarranted(o, seen, next, es) && OncePerKey(es) && key in seen && key !in next
    requires e.Deleted? && EventKey(e) == key && e.version == seen[key]
    requires forall i :: 0 <= i < |es| ==> EventKey(es[i]) != key
    ensures AllWarranted(o, seen, next, es + [e]) && OncePerKey(es + [e])
  {
    hide KeyOf, Passes;
  }

  /** Where the second loop stands: the deletions of the keys not in `todo` are sent, each once. */
  ghost predicate SentBut(o: Options, seen: Versions, next: Versions, sent: seq<WatchEvent>, view: Versions,
                          events: seq<WatchEvent>, todo: set<string>) {
    && AllWarranted(o, seen, next, events) && OncePerKey(events)
    && (forall i :: 0 <= i < |events| ==> EventKey(events[i]) !in todo || EventKey(events[i]) in next)
    && ApplyAll(view, events) == ApplyAll(view, sent) - (Gone(seen, next) - todo)
  }

  lemma NothingDeleted(o: Options, seen: Versions, next: Versions, sent: seq<WatchEvent>, view: Versions)
    requires GoodChanges(o, seen, next, sent)
    ensures SentBut(o, seen, next, sent, view, sent, seen.Keys)
  {
    GoodParts(o, seen, next, sent);
    hide AllWarranted, OncePerKey, ApplyAll, GoodChanges, EventKey;
    assert Gone(seen, next) - seen.Keys == {};
  }

  lemma AllDeleted(o: Options, seen: Versions, next: Versions, sent: seq<WatchEvent>, view: Versions, events: seq<WatchEvent>)
    requires SentBut(o, seen, next, sent, view, events, {})
    ensures AllWarranted(o, seen, next, events) && OncePerKey(events)
    ensures ApplyAll(view, events) == ApplyAll(view, sent) - Gone(seen, next)
  {
    hide AllWarranted, OncePerKey, ApplyAll, EventKey;
    assert Gone(seen, next) - {} == Gone(seen, next);
  }

  /** A key that is still there needs no event. */
  lemma KeptKey(o: Options, seen: Versions, next: Versions, sent: seq<WatchEvent>, view: Versions, events: seq<WatchEvent>,
                todo: set<string>, key: string)
    requires SentBut(o, seen, next, sent, view, events, todo) && key in todo && key in next
    ensures SentBut(o, seen, next, sent, view, events, todo - {key})
  {
    hide AllWarranted, OncePerKey, ApplyAll, EventKey;
    GoneMore(ApplyAll(view, sent), Gone(seen, next), todo, key);
  }

  /** A key that is gone gets its deletion. */
  lemma GoneKey(o: Options, seen: Versions, next: Versions, sent: seq<WatchEvent>, view: Versions, events: seq<WatchEvent>,
                todo: set<string>, key: string, e: WatchEvent)
    requires SentBut(o, seen, next, sent, view, events, todo) && key in todo && key in seen && key !in next
    requires e.Deleted? && EventKey(e) == key && e.version == seen[key]
    ensures SentBut(o, seen, next, sent, view, events + [e], todo - {key})
  {
    DeletedMore(o, seen, next, events, key, e);
    GoneMore(ApplyAll(view, sent), Gone(seen, next), todo, key);
    ApplyAllSnoc(view, events, e);
    hide AllWarranted, OncePerKey, ApplyAll, KeyOf;
  }

  /** One key of the second loop. */
  method SendDelete(o: Options, seen: Versions, next: Versions, ghost sent: seq<WatchEvent>, ghost view: Versions,
                    before: seq<WatchEvent>, ghost todo: set<string>, key: string)
    returns (events: seq<WatchEvent>)
    requires FilteredKeys(o, seen) && key in seen && key in todo && SentBut(o, seen, next, sent, view, before, todo)
    ensures SentBut(o, seen, next, sent, view, events, todo - {key})
  {
    hide SentBut, Passes, KeyOf, SplitKey;
    events := before;
    if key in next {
      KeptKey(o, seen, next, sent, view, before, todo, key);
      return;
    }
    var parts := SplitKey(key);
    if !Passes(o, parts.0, parts.1) {
      assert false;
      return;
    }
    var e := Deleted(parts.0, parts.1, seen[key]);
    GoneKey(o, seen, next, sent, view, before, todo, key, e);
    events := events + [e];
  }

  /** The second loop: keys that are gone, in whatever order the map yields them. */
  method SendDeletes(o: Options, seen: Versions, next: Versions, sent: seq<WatchEvent>, ghost view: Versions)
    returns (events: seq<WatchEvent>)
    requires FilteredKeys(o, seen) && GoodChanges(o, seen, next, sent)
    ensures AllWarranted(o, seen, next, events) && OncePerKey(events)
    ensures ApplyAll(view, events) == ApplyAll(view, sent) - Gone(seen, next)
  {
    hide SentBut, FilteredKeys, AllWarranted, OncePerKey, ApplyAll, GoodChanges, Gone;
    events := sent;
    var todo := seen.Keys;
    NothingDeleted(o, seen, next, sent, view);
    while todo != {}
      invariant todo <= seen.Keys && SentBut(o, seen, next, sent, view, events, todo)
    {
      var key :| key in todo;
      events := SendDelete(o, seen, next, sent, view, events, todo, key);
      todo := todo - {key};
    }
    AllDeleted(o, seen, next, sent, view, events);
  }

  /** One poll: `seen` becomes the filtered snapshot, every event sent is warranted, and a client that
      applies them moves from any view to the next one. */
  method SendWatchSnapshot(o: Options, records: seq<Record>, seen: Versions, ghost view: Versions)
    returns (events: seq<WatchEvent>, next: Versions)
    requires Proper(records) && FilteredKeys(o, seen)
    ensures next == Visible(o, records) && FilteredKeys(o, next)
    ensures AllWarranted(o, seen, next, events) && OncePerKey(events)
    ensures ApplyAll(view, events) == NextView(o, seen, next, view)
  {
    hide Passes, KeyOf, SplitKey, Warranted, WithChanges, GoodChanges;
    events, next := SendChanges(o, records, seen);
    ChangesApplied(o, seen, records, view);
    VisibleKeys(o, records);
    events := SendDeletes(o, seen, next, events, view);
  }

  // ---------------------------------------------------------------- any number of polls

  /** The client's view after polling each filtered snapshot in turn; `seen` is the one before them. */
  function ViewAfter(o: Options, seen: Versions, view: Versions, snaps: seq<Versions>): Versions
    decreases |snaps|
  {
    if snaps == [] then view else ViewAfter(o, snaps[0], NextView(o, seen, snaps[0], view), snaps[1..])
  }

  /** The view misses nothing above the requested version and holds nothing that is gone. */
  ghost predicate Covers(o: Options, snap: Versions, view: Versions) {
    && view.Keys <= snap.Keys
    && forall k :: k in snap && snap[k] > o.sinceRV ==> k in view && view[k] == snap[k]
  }

  lemma PollCovers(o: Options, seen: Versions, next: Versions, view: Versions)
    requires Covers(o, seen, view) || (seen == map[] && view.Keys <= next.Keys)
    ensures Covers(o, next, NextView(o, seen, next, view))
  {
  }

  /** After any number of polls the client holds every record above the requested version at its current
      version, and no record that is gone, whatever it started with of the first snapshot. */
  lemma {:induction false} ViewCovers(o: Options, seen: Versions, view: Versions, snaps: seq<Versions>)
    requires snaps != [] && (Covers(o, seen, view) || (seen == map[] && view.Keys <= snaps[0].Keys))
    ensures Covers(o, snaps[|snaps| - 1], ViewAfter(o, seen, view, snaps))
    decreases |snaps|
  {
    PollCovers(o, seen, snaps[0], view);
    if |snaps| == 1 {
      var nextView := NextView(o, seen, snaps[0], view);
      assert ViewAfter(o, snaps[0], nextView, snaps[1..]) == nextView;
    } else {
      ViewCovers(o, snaps[0], NextView(o, seen, snaps[0], view), snaps[1..]);
    }
  }

  /** No record at or below the requested version appears or changes. */
  ghost predicate NothingOldChanges(o: Options, seen: Versions, next: Versions) {
    forall k :: k in next && next[k] <= o.sinceRV ==> k in seen && seen[k] == next[k]
  }

  /** A client that was in step stays in step over a poll if and only if no record at or below the
      requested version appeared or changed: such a record is never sent. */
  lemma InStepIff(o: Options, seen: Versions, next: Versions)
    ensures NextView(o, seen, next, seen) == next <==> NothingOldChanges(o, seen, next)
  {
  }

  /** The first poll puts a client in step exactly when it already held the records at or below the
      requested version, and no key that is not there. */
  lemma FirstPollIff(o: Options, next: Versions, view: Versions)
    ensures NextView(o, map[], next, view) == next
       <==> view.Keys <= next.Keys && forall k :: k in next && next[k] <= o.sinceRV ==> k in view && view[k] == next[k]
  {
  }

  /** In step after every poll of a run. */
  ghost predicate AlwaysInStep(o: Options, seen: Versions, snaps: seq<Versions>)
    decreases |snaps|
  {
    snaps == [] || (NextView(o, seen, snaps[0], seen) == snaps[0] && AlwaysInStep(o, snaps[0], snaps[1..]))
  }

  ghost predicate NeverOldChanges(o: Options, seen: Versions, snaps: seq<Versions>)
    decreases |snaps|
  {
    snaps == [] || (NothingOldChanges(o, seen, snaps[0]) && NeverOldChanges(o, snaps[0], snaps[1..]))
  }

  /** Over a whole run: the folded events equal the filtered snapshot after every poll if and only if old
      records never appear or change. With a requested version of 0 and versions from 1 on they never do. */
  lemma {:induction false} InStepRun(o: Options, seen: Versions, snaps: seq<Versions>)
    ensures AlwaysInStep(o, seen, snaps) <==> NeverOldChanges(o, seen, snaps)
    decreases |snaps|
  {
    if snaps != [] {
      InStepIff(o, seen, snaps[0]);
      InStepRun(o, snaps[0], snaps[1..]);
    }
  }

  lemma {:induction false} FromScratch(o: Options, seen: Versions, snaps: seq<Versions>)
    requires o.sinceRV == 0 && forall i, k :: 0 <= i < |snaps| && k in snaps[i] ==> snaps[i][k] >= 1
    ensures AlwaysInStep(o, seen, snaps)
    decreases |snaps|
  {
    if snaps != [] {
      InStepIff(o, seen, snaps[0]);
      assert forall i, k :: 0 <= i < |snaps[1..]| && k in snaps[1..][i] ==> snaps[1..][i][k] == snaps[i + 1][k];
      FromScratch(o, snaps[0], snaps[1..]);
    }
  }

  /** A record that is deleted and created anew between polls restarts its versions, so with a requested
      version in between the client keeps the old one. */
  lemma RecreatedUnseen()
    ensures var o := Options(s => s, 3, "", None);
            NextView(o, map["ns/a" := 5], map["ns/a" := 1], map["ns/a" := 5]) == map["ns/a" := 5]
  {
  }
}
