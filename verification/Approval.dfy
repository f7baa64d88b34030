/** Deciding an approval: approve, deny or request changes, by reading the approval, checking it, and
    writing it back under a version check, at most five times.

    Deciders run concurrently, with each other and with appliers: requests that replace the approval's spec.
    An applier reads the status, puts it into the object it was sent, and writes that; the write is version
    checked only if the request names a version. A task controller that finds the approval pending past its
    time expires it, as a decider of its own kind with a single attempt. A worker that asks for the approval
    again writes it anew, pending and without a version. Approvals are also deleted, and one that is created
    again starts over at version 1. */
module Approval {
  import opened Strings

  datatype Decision = Approve | Deny | RequestChanges | Expire

  datatype Phase = Pending | Approved | Denied | ChangesRequested | Expired

  function PhaseOf(d: Decision): Phase {
    match d case Approve => Approved case Deny => Denied case RequestChanges => ChangesRequested case Expire => Expired
  }

  datatype Spec = Spec(reviewCycle: int, maxReviewCycles: int, allowRequestChanges: Option<bool>)

  function MaxCycles(spec: Spec): int {
    if spec.maxReviewCycles <= 0 then 3 else spec.maxReviewCycles
  }

  predicate AllowsRequestChanges(spec: Spec) {
    spec.allowRequestChanges.None? || spec.allowRequestChanges.value
  }

  predicate Permitted(spec: Spec, d: Decision) {
    d == RequestChanges ==> AllowsRequestChanges(spec) && spec.reviewCycle < MaxCycles(spec)
  }

  /** A request for changes is withheld where the spec rules it out, and at or past the limit on review cycles,
      which is 3 unless the spec sets one. */
  lemma PermittedMeans(spec: Spec, d: Decision)
    ensures !Permitted(spec, d)
       <==> && d.RequestChanges?
            && (|| spec.allowRequestChanges == Some(false)
                || (spec.maxReviewCycles > 0 && spec.reviewCycle >= spec.maxReviewCycles)
                || (spec.maxReviewCycles <= 0 && spec.reviewCycle >= 3))
  {
  }

  datatype Outcome = Committed | CommentMissing | NotFound | AlreadyDecided | NotPermitted | Exhausted | Dropped | StoreError

  /** What somebody read: the version and the spec, and which life and which change of the approval it was. */
  datatype Read = Read(version: nat, spec: Spec, life: nat, stamp: nat)

  /** A decider: about to read, about to write what it read, or finished. `base` and `end` count the changes of
      the approval when it began and ended, `failed` its writes that met another version. */
  datatype Decider =
    | Reading(decision: Decision, base: nat, failed: nat)
    | Writing(decision: Decision, base: nat, failed: nat, read: Read)
    | Finished(decision: Decision, base: nat, outcome: Outcome, end: nat)

  /** An applier that is about to write: what it was sent, the version it names, the phase it writes, and what
      it read. */
  datatype Applier = Applier(newSpec: Spec, expected: Option<nat>, phase: Phase, read: Read) | Applied

  /** A commit: by whom, the decision, the spec and the life of the approval it met, and the life that was read
      for it. */
  datatype Verdict = Verdict(decider: nat, decision: Decision, spec: Spec, life: nat, read: nat)

  /** The stored approval if it is alive, and those at work on it. Creation begins a new life; `stamp` counts
      all changes, deletions included. The history has the commits and whether somebody other than a decider
      ever wrote a phase other than the one it replaced, or than pending at a creation. */
  datatype State = State(alive: bool, version: nat, phase: Phase, spec: Spec, life: nat, stamp: nat,
                         deciders: map<nat, Decider>, appliers: map<nat, Applier>, commits: seq<Verdict>, overwritten: bool)

  /** `own` is the phase in the object an applier was sent; it counts only if there is no approval to read. */
  datatype Step =
    | Begin(who: nat, decision: Decision, comment: bool)
    | Get(who: nat)
    | Put(who: nat)
    | Fail(who: nat)
    | Apply(applier: nat, newSpec: Spec, expected: Option<nat>, own: Phase)
    | Store(applier: nat)
    | Recreate(spec: Spec)
    | Delete

  const ATTEMPTS: nat := 5

  function ReadOf(s: State): Read {
    Read(s.version, s.spec, s.life, s.stamp)
  }

  /** The applier's write passes the store's version check; 0 stands for an approval that is not there. */
  predicate Passes(s: State, a: nat) {
    && a in s.appliers && s.appliers[a].Applier?
    && (s.appliers[a].expected.None? || s.appliers[a].expected.value == if s.alive then s.version else 0)
  }

  predicate ByDecider(step: Step) {
    step.Begin? || step.Get? || step.Put? || step.Fail?
  }

  /** The decider is about to write and has the current version. */
  predicate Current(s: State, d: Decider) {
    d.Writing? && s.alive && d.read.version == s.version
  }

  /** What becomes of the decider itself at its own step. */
  function Act(s: State, d: Option<Decider>, step: Step): Option<Decider>
    requires ByDecider(step)
  {
    match (step, d)
    case (Begin(_, decision, comment), None) =>
      Some(if decision == RequestChanges && !comment then Finished(decision, s.stamp, CommentMissing, s.stamp)
           else Reading(decision, s.stamp, 0))
    case (Get(_), Some(Reading(decision, base, failed))) =>
      Some(if !s.alive then Finished(decision, base, NotFound, s.stamp)
           else if s.phase != Pending then Finished(decision, base, AlreadyDecided, s.stamp)
           else if !Permitted(s.spec, decision) then Finished(decision, base, NotPermitted, s.stamp)
           else Writing(decision, base, failed, ReadOf(s)))
    case (Put(_), Some(Writing(decision, base, failed, _))) =>
      Some(if Current(s, d.value) then Finished(decision, base, Committed, s.stamp)
           else if decision == Expire then Finished(decision, base, Dropped, s.stamp)
           else if failed + 1 < ATTEMPTS then Reading(decision, base, failed + 1)
           else Finished(decision, base, Exhausted, s.stamp))
    case (Fail(_), Some(x)) => if x.Finished? then d else Some(Finished(x.decision, x.base, StoreError, s.stamp))
    case _ => d
  }

  function DeciderAt(s: State, who: nat): Option<Decider> {
    if who in s.deciders then Some(s.deciders[who]) else None
  }

  function WithDecider(deciders: map<nat, Decider>, who: nat, d: Option<Decider>): map<nat, Decider> {
    if d.None? then deciders else deciders[who := d.value]
  }

  /** A decision goes into the approval with the spec that was read for it. */
  function Commit(s: State, who: nat, decision: Decision, read: Read): State {
    s.(version := s.version + 1, stamp := s.stamp + 1, phase := PhaseOf(decision), spec := read.spec,
       commits := s.commits + [Verdict(who, decision, s.spec, s.life, read.life)])
  }

  function Next(s: State, step: Step): State {
    if ByDecider(step) then
      var d := DeciderAt(s, step.who);
      var t := s.(deciders := WithDecider(s.deciders, step.who, Act(s, d, step)));
      if step.Put? && d.Some? && Current(s, d.value) then Commit(t, step.who, d.value.decision, d.value.read) else t
    else NextWrite(s, step)
  }

  /** Somebody else writes the approval, over what is there or as a new one. */
  function Written(s: State, phase: Phase, spec: Spec): State {
    if s.alive then s.(version := s.version + 1, stamp := s.stamp + 1, phase := phase, spec := spec, overwritten := s.overwritten || phase != s.phase)
    else s.(alive := true, version := 1, life := s.life + 1, stamp := s.stamp + 1, phase := phase, spec := spec,
            overwritten := s.overwritten || phase != Pending)
  }

  /** The steps of appliers and workers, and deletion. */
  function NextWrite(s: State, step: Step): State
    requires !ByDecider(step)
  {
    match step
    case Apply(a, newSpec, expected, own) =>
      if a in s.appliers then s
      else s.(appliers := s.appliers[a := Applier(newSpec, expected, if s.alive then s.phase else own, ReadOf(s))])
    case Store(a) =>
      if a !in s.appliers then s
      else if !Passes(s, a) then s.(appliers := s.appliers[a := Applied])
      else Written(s, s.appliers[a].phase, s.appliers[a].newSpec).(appliers := s.appliers[a := Applied])
    case Recreate(spec) => Written(s, Pending, spec)
    case Delete => if s.alive then s.(alive := false, stamp := s.stamp + 1) else s
  }

  lemma BeginStep(s: State, w: nat, decision: Decision, comment: bool)
    requires w !in s.deciders
    ensures Next(s, Begin(w, decision, comment)) == s.(deciders := s.deciders[w :=
              if decision == RequestChanges && !comment then Finished(decision, s.stamp, CommentMissing, s.stamp)
              else Reading(decision, s.stamp, 0)])
  {
  }

  lemma GetStep(s: State, w: nat, decision: Decision, base: nat, failed: nat)
    requires w in s.deciders && s.deciders[w] == Reading(decision, base, failed)
    ensures Next(s, Get(w)) == s.(deciders := s.deciders[w :=
              if !s.alive then Finished(decision, base, NotFound, s.stamp)
              else if s.phase != Pending then Finished(decision, base, AlreadyDecided, s.stamp)
              else if !Permitted(s.spec, decision) then Finished(decision, base, NotPermitted, s.stamp)
              else Writing(decision, base, failed, ReadOf(s))])
  {
    hide Permitted;
  }

  lemma PutStep(s: State, w: nat, decision: Decision, base: nat, failed: nat, read: Read)
    requires w in s.deciders && s.deciders[w] == Writing(decision, base, failed, read)
    ensures Next(s, Put(w))
         == if s.alive && read.version == s.version then
              Commit(s.(deciders := s.deciders[w := Finished(decision, base, Committed, s.stamp)]), w, decision, read)
            else
              s.(deciders := s.deciders[w :=
                if decision == Expire then Finished(decision, base, Dropped, s.stamp)
                else if failed + 1 < ATTEMPTS then Reading(decision, base, failed + 1)
                else Finished(decision, base, Exhausted, s.stamp)])
  {
  }

  function Run(s: State, steps: seq<Step>): State {
    if steps == [] then s else Next(Run(s, steps[..|steps| - 1]), steps[|steps| - 1])
  }

  predicate Initial(s: State) {
    s.alive && s.phase == Pending && s.deciders == map[] && s.appliers == map[] && s.commits == [] && !s.overwritten
  }

  // ---------------------------------------------------------------- what every step keeps

  /** How a read relates to the approval now: within one life versions and changes go up together. */
  predicate Dated(s: State, r: Read) {
    && r.life <= s.life && r.stamp <= s.stamp
    && (r.life == s.life && s.alive ==> r.version <= s.version && s.version - r.version == s.stamp - r.stamp)
  }

  /** What a decider knows: what it read is still there as long as nothing changed, and each failed write stands
      for a change since the decider began. */
  predicate Informed(s: State, d: Decider) {
    match d
    case Reading(_, base, failed) => failed < ATTEMPTS && base + failed <= s.stamp
    case Writing(decision, base, failed, read) =>
      && failed < ATTEMPTS && base + failed <= read.stamp && Dated(s, read) && Permitted(read.spec, decision)
      && (read.stamp == s.stamp ==> s.alive && s.life == read.life && s.phase == Pending && s.spec == read.spec)
    case Finished(_, base, outcome, end) => base <= end <= s.stamp && (outcome == Exhausted ==> base + ATTEMPTS <= end)
  }

  /** What an applier read is still the phase as long as nothing changed. */
  predicate UpToDate(s: State, a: Applier) {
    a.Applier? ==> Dated(s, a.read) && (a.read.stamp == s.stamp && s.alive ==> a.phase == s.phase)
  }

  predicate IsCommitted(d: Decider) {
    d.Finished? && d.outcome == Committed
  }

  predicate CommittedBy(s: State, w: nat, d: Decider) {
    exists i :: 0 <= i < |s.commits| && s.commits[i].decider == w && s.commits[i].decision == d.decision
  }

  /** The commit's decider had read the life it decided, and the spec it met permits it. */
  predicate SeenPermitted(v: Verdict) {
    v.read == v.life ==> Permitted(v.spec, v.decision)
  }

  /** Every commit was permitted unless it decided another life than was read, and each committed decider has
      its own. */
  predicate Recorded(s: State) {
    && (forall i :: 0 <= i < |s.commits| ==> SeenPermitted(s.commits[i]))
    && (forall w :: w in s.deciders && IsCommitted(s.deciders[w]) ==> CommittedBy(s, w, s.deciders[w]))
  }

  /** No phase was overwritten, and every commit decided the life that was read for it. */
  predicate Clean(s: State) {
    !s.overwritten && forall i :: 0 <= i < |s.commits| ==> s.commits[i].read == s.commits[i].life
  }

  /** This life's decision was committed. */
  predicate Decided(s: State) {
    s.commits != [] && s.commits[|s.commits| - 1].life == s.life
  }

  /** Each life has at most one commit, and the approval is pending or carries its life's. */
  predicate Settled(s: State) {
    Clean(s) ==>
      && (forall i, j :: 0 <= i < j < |s.commits| ==> s.commits[i].life < s.commits[j].life)
      && (forall i :: 0 <= i < |s.commits| ==> s.commits[i].life <= s.life)
      && (s.alive ==> s.phase == if Decided(s) then PhaseOf(s.commits[|s.commits| - 1].decision) else Pending)
  }

  predicate AllInformed(s: State) {
    && (forall w :: w in s.deciders ==> Informed(s, s.deciders[w]))
    && (forall a :: a in s.appliers ==> UpToDate(s, s.appliers[a]))
  }

  predicate Inv(s: State) {
    Settled(s) && Recorded(s) && AllInformed(s)
  }

  lemma NextInformed(s: State, step: Step)
    requires AllInformed(s)
    ensures AllInformed(Next(s, step))
  {
    hide Next;
    var t := Next(s, step);
    forall w | w in t.deciders ensures Informed(t, t.deciders[w]) {
      DeciderInformed(s, step, w);
    }
    forall a | a in t.appliers ensures UpToDate(t, t.appliers[a]) {
      ApplierInformed(s, step, a);
    }
  }

  /** A decider's own step leaves it informed. */
  lemma OwnInformed(s: State, step: Step)
    requires ByDecider(step) && (step.who in s.deciders ==> Informed(s, s.deciders[step.who])) && step.who in Next(s, step).deciders
    ensures Informed(Next(s, step), Next(s, step).deciders[step.who])
  {
    hide Permitted, PhaseOf;
  }

  /** One change of the approval, or none. */
  predicate Moves(s: State, t: State) {
    || (t.stamp == s.stamp && t.alive == s.alive && t.version == s.version && t.life == s.life && t.phase == s.phase && t.spec == s.spec)
    || (t.stamp == s.stamp + 1
        && ((s.alive && t.alive && t.life == s.life && t.version == s.version + 1)
            || (s.alive && !t.alive && t.life == s.life)
            || (!s.alive && t.alive && t.life == s.life + 1)))
  }

  lemma NextMoves(s: State, step: Step)
    ensures Moves(s, Next(s, step))
  {
    hide Permitted, PhaseOf, Passes;
  }

  /** Those who take no step stay informed. */
  lemma StaysInformed(s: State, t: State, d: Decider)
    requires Informed(s, d) && Moves(s, t)
    ensures Informed(t, d)
  {
    hide Permitted;
  }

  lemma DeciderInformed(s: State, step: Step, w: nat)
    requires AllInformed(s) && w in Next(s, step).deciders
    ensures Informed(Next(s, step), Next(s, step).deciders[w])
  {
    NextMoves(s, step);
    if ByDecider(step) && step.who == w {
      OwnInformed(s, step);
    } else {
      hide Informed, UpToDate, Act, Permitted, Moves, Passes, Current;
      StaysInformed(s, Next(s, step), s.deciders[w]);
    }
  }

  lemma ApplierInformed(s: State, step: Step, a: nat)
    requires AllInformed(s) && a in Next(s, step).appliers
    ensures UpToDate(Next(s, step), Next(s, step).appliers[a])
  {
    hide Permitted, PhaseOf, Informed;
    NextMoves(s, step);
  }

  /** Within the life that was read, a write passes the version check exactly if nothing changed since. */
  lemma CurrentIff(s: State, d: Decider)
    requires Informed(s, d) && d.Writing? && d.read.life == s.life
    ensures Current(s, d) <==> d.read.stamp == s.stamp
  {
    hide Permitted;
  }

  lemma NextSettled(s: State, step: Step)
    requires Settled(s) && AllInformed(s)
    ensures Settled(Next(s, step))
  {
    hide Permitted;
    if ByDecider(step) {
      if step.Put? && step.who in s.deciders && Current(s, s.deciders[step.who]) {
        CommitSettled(s, step.who);
      }
    } else {
      WriteSettled(s, step);
    }
  }

  lemma CommitSettled(s: State, w: nat)
    requires Settled(s) && w in s.deciders && Informed(s, s.deciders[w]) && Current(s, s.deciders[w])
    ensures Settled(Next(s, Put(w)))
  {
    hide Permitted;
    var t := Next(s, Put(w));
    assert t.commits == s.commits + [Verdict(w, s.deciders[w].decision, s.spec, s.life, s.deciders[w].read.life)];
    if Clean(t) {
      assert t.commits[|s.commits|].read == t.commits[|s.commits|].life;
      assert forall i :: 0 <= i < |s.commits| ==> t.commits[i] == s.commits[i];
      CurrentIff(s, s.deciders[w]);
    }
  }

  lemma WriteSettled(s: State, step: Step)
    requires Settled(s) && !ByDecider(step)
    ensures Settled(Next(s, step))
  {
    hide Passes;
  }

  lemma NextRecorded(s: State, step: Step)
    requires Recorded(s) && AllInformed(s)
    ensures Recorded(Next(s, step))
  {
    CommitsGrow(s, step);
    hide SeenPermitted, Permitted, CommittedBy, AllInformed, Passes, PhaseOf;
    var t := Next(s, step);
    forall w | w in t.deciders && IsCommitted(t.deciders[w]) ensures CommittedBy(t, w, t.deciders[w]) {
      if w in s.deciders && IsCommitted(s.deciders[w]) {
        assert t.deciders[w] == s.deciders[w];
        StillCommitted(s, t, w, s.deciders[w]);
      } else {
        NewlyCommitted(t, w);
      }
    }
  }

  /** A step adds at most one commit, permitted if its decider saw what it decided. */
  lemma CommitsGrow(s: State, step: Step)
    requires AllInformed(s)
    ensures var t := Next(s, step);
            s.commits <= t.commits && forall i :: |s.commits| <= i < |t.commits| ==> SeenPermitted(t.commits[i])
  {
    hide Permitted, UpToDate, Passes;
    if step.Put? && step.who in s.deciders && Current(s, s.deciders[step.who]) {
      var d := s.deciders[step.who];
      assert Informed(s, d);
      if d.read.life == s.life {
        CurrentIff(s, d);
      }
    }
  }

  lemma StillCommitted(s: State, t: State, w: nat, d: Decider)
    requires CommittedBy(s, w, d) && s.commits <= t.commits
    ensures CommittedBy(t, w, d)
  {
    var i :| 0 <= i < |s.commits| && s.commits[i].decider == w && s.commits[i].decision == d.decision;
    assert t.commits[i] == s.commits[i];
  }

  lemma NewlyCommitted(t: State, w: nat)
    requires w in t.deciders && t.commits != []
    requires t.commits[|t.commits| - 1].decider == w && t.commits[|t.commits| - 1].decision == t.deciders[w].decision
    ensures CommittedBy(t, w, t.deciders[w])
  {
  }

  lemma {:induction false} Reachable(s: State, steps: seq<Step>)
    requires Initial(s)
    ensures Inv(Run(s, steps))
  {
    hide Next, AllInformed, Settled, Recorded;
    if steps == [] {
      InitialInv(s);
    } else {
      var before, step := Run(s, steps[..|steps| - 1]), steps[|steps| - 1];
      Reachable(s, steps[..|steps| - 1]);
      NextSettled(before, step);
      NextRecorded(before, step);
      NextInformed(before, step);
    }
  }

  lemma InitialInv(s: State)
    requires Initial(s)
    ensures Inv(s)
  {
  }

  // ---------------------------------------------------------------- at most one decision

  /** Under any interleaving, deletions included, in which no phase is overwritten and no commit decides another
      life than was read: each life of the approval gets at most one decision or expiry, and the approval carries
      it. A request for changes commits only where the spec it meets allows it and its review cycle is below the
      limit, unless it decides a life that was not read. */
  lemma AtMostOneDecision(s: State, steps: seq<Step>)
    requires Initial(s)
    ensures var t := Run(s, steps);
            && (forall i :: 0 <= i < |t.commits| && t.commits[i].read == t.commits[i].life && t.commits[i].decision == RequestChanges ==>
                  var spec := t.commits[i].spec;
                  spec.allowRequestChanges != Some(false) && spec.reviewCycle < if spec.maxReviewCycles <= 0 then 3 else spec.maxReviewCycles)
            && (forall w :: w in t.deciders && IsCommitted(t.deciders[w]) ==> CommittedBy(t, w, t.deciders[w]))
            && (Clean(t) ==>
                  && (forall i, j :: 0 <= i < j < |t.commits| ==> t.commits[i].life < t.commits[j].life <= t.life)
                  && (t.alive ==> (t.phase == Pending <==> !Decided(t)))
                  && (t.alive && Decided(t) ==> t.phase == PhaseOf(t.commits[|t.commits| - 1].decision)))
  {
    hide Run, AllInformed, Permitted, CommittedBy;
    Reachable(s, steps);
    var commits := Run(s, steps).commits;
    forall i | 0 <= i < |commits| && commits[i].read == commits[i].life && commits[i].decision == RequestChanges
      ensures var spec := commits[i].spec;
              spec.allowRequestChanges != Some(false) && spec.reviewCycle < if spec.maxReviewCycles <= 0 then 3 else spec.maxReviewCycles
    {
      assert SeenPermitted(commits[i]);
      PermittedMeans(commits[i].spec, commits[i].decision);
    }
  }

  /** When a commit decides an approval that its decider never read: exactly if the approval was deleted and
      created since the read and has come to the version that was read. */
  lemma UnseenIff(s: State, w: nat)
    requires AllInformed(s) && w in s.deciders && s.deciders[w].Writing?
    ensures var d := s.deciders[w];
            Current(s, d) && d.read.stamp != s.stamp <==> s.alive && d.read.version == s.version && d.read.life < s.life
  {
    hide Permitted, UpToDate;
    var d := s.deciders[w];
    assert Informed(s, d);
    if d.read.life == s.life {
      CurrentIff(s, d);
    }
  }

  /** It happens: the decider reads version 1, the approval is deleted and created again with any spec, and the
      decision lands on the new one, with the old spec, permitted by the new one or not. */
  lemma DecidesUnseen(s: State, spec: Spec) returns (steps: seq<Step>)
    requires Initial(s) && s.version == 1 && Permitted(s.spec, RequestChanges)
    ensures var t := Run(s, steps);
            && t.commits == [Verdict(1, RequestChanges, spec, s.life + 1, s.life)]
            && t.phase == ChangesRequested && t.spec == s.spec && !t.overwritten
  {
    hide Run, Next, Permitted;
    NoSteps(s);
    BeginStep(s, 1, RequestChanges, true);
    steps := Then(s, [], Begin(1, RequestChanges, true));
    GetStep(Run(s, steps), 1, RequestChanges, s.stamp, 0);
    steps := Then(s, steps, Get(1));
    var t := Run(s, steps);
    DeleteCreate(t, spec);
    steps := Then(s, steps, Delete);
    steps := Then(s, steps, Recreate(spec));
    PutStep(Run(s, steps), 1, RequestChanges, s.stamp, 0, ReadOf(s));
    steps := Then(s, steps, Put(1));
  }

  lemma DeleteCreate(s: State, spec: Spec)
    requires s.alive
    ensures Next(Next(s, Delete), Recreate(spec)) == s.(version := 1, life := s.life + 1, stamp := s.stamp + 2, phase := Pending, spec := spec)
  {
  }

  /** Exactly which step takes a decision away: a deletion; the write of an applier that passes the version check
      and had read another phase; a worker's that asks anew; or a commit of another decision, and then by a
      decider that had read another life. */
  lemma DecidedChangesIff(s: State, step: Step)
    requires AllInformed(s) && s.alive && s.phase != Pending
    ensures var t := Next(s, step);
            !t.alive || t.phase != s.phase
            <==> || step.Delete? || step.Recreate?
                 || (step.Store? && Passes(s, step.applier) && s.appliers[step.applier].phase != s.phase)
                 || (step.Put? && step.who in s.deciders && Current(s, s.deciders[step.who]) && PhaseOf(s.deciders[step.who].decision) != s.phase)
    ensures step.Put? && step.who in s.deciders && Current(s, s.deciders[step.who]) ==> s.deciders[step.who].read.life < s.life
  {
    hide Permitted, UpToDate;
    if step.Put? && step.who in s.deciders && Current(s, s.deciders[step.who]) {
      UnseenIff(s, step.who);
    }
  }

  lemma CleanBefore(s: State, step: Step)
    requires Clean(Next(s, step)) && AllInformed(s)
    ensures Clean(s)
  {
    hide Permitted, PhaseOf, Passes;
    var t := Next(s, step);
    CommitsGrow(s, step);
    forall i | 0 <= i < |s.commits| ensures s.commits[i].read == s.commits[i].life {
      assert t.commits[i] == s.commits[i];
    }
  }

  /** Once committed, a decision survives every continuation of its life in which no phase is overwritten and
      no commit decides a life that was not read. */
  lemma {:induction false} FinalForEver(s: State, steps: seq<Step>, more: seq<Step>)
    requires Initial(s) && Run(s, steps).alive && Decided(Run(s, steps))
    requires var t := Run(s, steps + more); Clean(t) && t.alive && t.life == Run(s, steps).life
    ensures Run(s, steps + more).commits == Run(s, steps).commits && Run(s, steps + more).phase == Run(s, steps).phase
    decreases |more|
  {
    hide Next, AllInformed, Recorded, PhaseOf, Moves, Clean;
    if more == [] {
      assert steps + more == steps;
    } else {
      var init, step := more[..|more| - 1], more[|more| - 1];
      var longer := steps + more;
      assert longer[..|longer| - 1] == steps + init && longer[|longer| - 1] == step;
      var before := Run(s, steps + init);
      Reachable(s, steps + init);
      CleanBefore(before, step);
      LivesGrow(s, steps, init);
      SameLife(before, step);
      FinalForEver(s, steps, init);
      DecidedStays(before, step);
    }
  }

  lemma SameLife(s: State, step: Step)
    ensures s.life <= Next(s, step).life && (Next(s, step).life == s.life && Next(s, step).alive ==> s.alive)
  {
    hide Next;
    NextMoves(s, step);
  }

  lemma {:induction false} LivesGrow(s: State, steps: seq<Step>, more: seq<Step>)
    ensures Run(s, steps).life <= Run(s, steps + more).life
    decreases |more|
  {
    hide Next;
    if more == [] {
      assert steps + more == steps;
    } else {
      var init, longer := more[..|more| - 1], steps + more;
      assert longer[..|longer| - 1] == steps + init;
      LivesGrow(s, steps, init);
      SameLife(Run(s, steps + init), more[|more| - 1]);
    }
  }

  lemma DecidedStays(s: State, step: Step)
    requires Inv(s) && Clean(Next(s, step)) && Clean(s) && s.alive && Decided(s) && Next(s, step).alive
    ensures Next(s, step).commits == s.commits && Next(s, step).phase == s.phase
  {
    hide Permitted, Recorded;
    var t := Next(s, step);
    DecidedPhase(s.commits[|s.commits| - 1].decision);
    DecidedChangesIff(s, step);
    if step.Put? && step.who in s.deciders && Current(s, s.deciders[step.who]) {
      NotClean(t, |s.commits|);
    }
  }

  lemma NotClean(s: State, i: nat)
    requires i < |s.commits| && s.commits[i].read != s.commits[i].life
    ensures !Clean(s)
  {
  }

  lemma DecidedPhase(d: Decision)
    ensures PhaseOf(d) != Pending
  {
  }

  /** Every applier of the run finds the approval, names one of the versions it had by then and writes in the
      life it read; and nobody asks anew for an approval that is there. */
  predicate NamesVersions(s: State, steps: seq<Step>) {
    steps == [] || (var init, last := steps[..|steps| - 1], steps[|steps| - 1];
                    NamesVersions(s, init) && NamesVersion(Run(s, init), last))
  }

  predicate NamesVersion(s: State, step: Step) {
    && (step.Recreate? ==> !s.alive)
    && (step.Apply? ==> s.alive && step.expected.Some? && 1 <= step.expected.value <= s.version)
    && (step.Store? && step.applier in s.appliers && s.appliers[step.applier].Applier? ==> s.appliers[step.applier].read.life == s.life)
  }

  predicate Named(s: State) {
    forall a :: a in s.appliers && s.appliers[a].Applier? ==>
      s.appliers[a].expected.Some? && 1 <= s.appliers[a].expected.value <= s.appliers[a].read.version
  }

  lemma NextNamed(s: State, step: Step)
    requires AllInformed(s) && Named(s) && !s.overwritten && NamesVersion(s, step)
    ensures Named(Next(s, step)) && !Next(s, step).overwritten
  {
    hide Permitted, Informed, PhaseOf;
  }

  /** Then no phase is ever overwritten. */
  lemma {:induction false} VersionedNeverOverwrites(s: State, steps: seq<Step>)
    requires Initial(s) && NamesVersions(s, steps)
    ensures !Run(s, steps).overwritten && Named(Run(s, steps))
  {
    hide Next, AllInformed, Settled, Recorded, Named, NamesVersion;
    if steps == [] {
      NobodyYet(s);
    } else {
      var init := steps[..|steps| - 1];
      VersionedNeverOverwrites(s, init);
      Reachable(s, init);
      NextNamed(Run(s, init), steps[|steps| - 1]);
    }
  }

  lemma NobodyYet(s: State)
    requires Initial(s)
    ensures Named(s)
  {
  }

  /** If one names none, a decision can be lost and another one committed: the applier reads before the approval
      is granted and writes after it, and then the approval is denied. */
  lemma UnversionedDecidesTwice(s: State) returns (steps: seq<Step>)
    requires Initial(s)
    ensures var t := Run(s, steps);
            && |t.commits| == 2 && t.commits[0].decision == Approve && t.commits[1].decision == Deny && t.phase == Denied
            && t.commits[0].life == t.commits[1].life == s.life
  {
    hide Run, Next;
    NoSteps(s);
    ApplyStore(s, 0, s.spec);
    steps := Then(s, [], Apply(0, s.spec, None, Pending));
    steps := DecideAlone(s, steps, 1, Approve);
    ApplyStore(Run(s, steps), 0, s.spec);
    steps := Then(s, steps, Store(0));
    steps := DecideAlone(s, steps, 2, Deny);
  }

  lemma ApplyStore(s: State, a: nat, spec: Spec)
    requires s.alive
    ensures a !in s.appliers ==> Next(s, Apply(a, spec, None, Pending)) == s.(appliers := s.appliers[a := Applier(spec, None, s.phase, ReadOf(s))])
    ensures a in s.appliers && s.appliers[a].Applier? && s.appliers[a].expected.None? ==>
              Next(s, Store(a)) == s.(version := s.version + 1, stamp := s.stamp + 1, phase := s.appliers[a].phase, spec := s.appliers[a].newSpec,
                                      appliers := s.appliers[a := Applied], overwritten := s.overwritten || s.appliers[a].phase != s.phase)
  {
  }

  /** A decision that nobody interrupts. */
  lemma DecideAlone(s: State, steps: seq<Step>, w: nat, decision: Decision) returns (more: seq<Step>)
    requires var t := Run(s, steps); w !in t.deciders && t.alive && t.phase == Pending && decision != RequestChanges
    ensures var t := Run(s, steps);
            Run(s, more) == Commit(t.(deciders := t.deciders[w := Finished(decision, t.stamp, Committed, t.stamp)]), w, decision, ReadOf(t))
  {
    hide Run, Next;
    var t := Run(s, steps);
    BeginStep(t, w, decision, false);
    more := Then(s, steps, Begin(w, decision, false));
    GetStep(Run(s, more), w, decision, t.stamp, 0);
    more := Then(s, more, Get(w));
    PutStep(Run(s, more), w, decision, t.stamp, 0, ReadOf(t));
    more := Then(s, more, Put(w));
  }

  lemma Then(s: State, steps: seq<Step>, step: Step) returns (more: seq<Step>)
    ensures more == steps + [step] && Run(s, more) == Next(Run(s, steps), step)
  {
    more := steps + [step];
    assert more[..|more| - 1] == steps;
  }

  // ---------------------------------------------------------------- attempts

  /** A decider runs out of attempts only if the approval changed at least five times since it began, and none
      of the changes was its own. */
  lemma ExhaustedOnlyUnderContention(s: State, steps: seq<Step>, w: nat)
    requires Initial(s) && w in Run(s, steps).deciders
    requires var d := Run(s, steps).deciders[w]; d.Finished? && d.outcome == Exhausted
    ensures var d := Run(s, steps).deciders[w]; d.end - d.base >= 5
  {
    hide Run, Settled, Recorded, UpToDate;
    Reachable(s, steps);
    assert Informed(Run(s, steps), Run(s, steps).deciders[w]);
  }

  /** A store error ends a decider and changes nothing else. */
  lemma FailEnds(s: State, w: nat)
    requires w in s.deciders && !s.deciders[w].Finished?
    ensures var t := Next(s, Fail(w));
            t.deciders == s.deciders[w := Finished(s.deciders[w].decision, s.deciders[w].base, StoreError, s.stamp)] && t == s.(deciders := t.deciders)
  {
  }

  /** Left alone, a permitted decision on a pending approval commits at the first attempt. */
  lemma UncontendedCommits(s: State, w: nat)
    requires s.alive && s.phase == Pending && w in s.deciders && s.deciders[w].Reading? && Permitted(s.spec, s.deciders[w].decision)
    ensures var t := Next(Next(s, Get(w)), Put(w));
            && t.commits == s.commits + [Verdict(w, s.deciders[w].decision, s.spec, s.life, s.life)]
            && IsCommitted(t.deciders[w]) && t.spec == s.spec
  {
  }

  /** The step changes the approval: it writes it or deletes it. */
  predicate Changes(s: State, step: Step) {
    || step.Recreate? || (step.Delete? && s.alive)
    || (step.Store? && Passes(s, step.applier))
    || (step.Put? && step.who in s.deciders && Current(s, s.deciders[step.who]))
  }

  function ChangeCount(s: State, steps: seq<Step>): nat {
    if steps == [] then 0
    else
      var init := steps[..|steps| - 1];
      ChangeCount(s, init) + (if Changes(Run(s, init), steps[|steps| - 1]) then 1 else 0)
  }

  lemma StepCounts(s: State, step: Step)
    ensures Next(s, step).stamp == s.stamp + (if Changes(s, step) then 1 else 0)
  {
    hide Permitted, PhaseOf;
  }

  /** The stamp counts the changes of a run, and so does the version as long as the approval lives. */
  lemma {:induction false} VersionCountsWrites(s: State, steps: seq<Step>)
    requires s.alive
    ensures var t := Run(s, steps);
            && t.stamp == s.stamp + ChangeCount(s, steps) && s.life <= t.life
            && (t.life == s.life && t.alive ==> t.version == s.version + ChangeCount(s, steps))
  {
    hide Next, Changes;
    if steps != [] {
      var init, step := steps[..|steps| - 1], steps[|steps| - 1];
      VersionCountsWrites(s, init);
      StepCounts(Run(s, init), step);
      NextMoves(Run(s, init), step);
    }
  }

  // ---------------------------------------------------------------- the handler's loop

  predicate TakenBy(step: Step, w: nat) {
    (step.Begin? || step.Get? || step.Put? || step.Fail?) && step.who == w
  }

  /** Steps that decider `w` does not take. */
  predicate ByOthers(steps: seq<Step>, w: nat) {
    forall i :: 0 <= i < |steps| ==> !TakenBy(steps[i], w)
  }

  lemma {:induction false} RunConcat(s: State, a: seq<Step>, b: seq<Step>)
    ensures Run(s, a + b) == Run(Run(s, a), b)
  {
    hide Next;
    if b == [] {
      assert a + b == a;
    } else {
      RunConcat(s, a, b[..|b| - 1]);
      assert (a + b)[..|a + b| - 1] == a + b[..|b| - 1];
    }
  }

  lemma {:induction false} OthersKeep(s: State, steps: seq<Step>, w: nat)
    requires ByOthers(steps, w) && w in s.deciders
    ensures w in Run(s, steps).deciders && Run(s, steps).deciders[w] == s.deciders[w]
  {
    hide Next;
    if steps != [] {
      OthersKeep(s, steps[..|steps| - 1], w);
      assert !TakenBy(steps[|steps| - 1], w);
      OtherKeeps(Run(s, steps[..|steps| - 1]), steps[|steps| - 1], w);
    }
  }

  lemma OtherKeeps(s: State, step: Step, w: nat)
    requires !TakenBy(step, w) && w in s.deciders
    ensures w in Next(s, step).deciders && Next(s, step).deciders[w] == s.deciders[w]
  {
    hide Act, Permitted, Passes, Current, PhaseOf;
  }

  /** The run goes on with whatever others do, and then with one step of `w`. */
  lemma Extend(s0: State, steps: seq<Step>, between: seq<Step>, w: nat, step: Step)
    requires ByOthers(between, w) && w in Run(s0, steps).deciders
    ensures var s := Run(Run(s0, steps), between);
            && w in s.deciders && s.deciders[w] == Run(s0, steps).deciders[w]
            && Run(s0, steps + between + [step]) == Next(s, step)
  {
    hide Next;
    OthersKeep(Run(s0, steps), between, w);
    RunConcat(s0, steps, between);
    var all := steps + between + [step];
    assert all[..|all| - 1] == steps + between;
  }

  /** The handler as it is written, a loop of at most five reads and version-checked writes; before each of
      them others take any steps. It is a run of the machine in which its decider comes to an end, so all
      that holds of runs holds of it. It ends with a refusal exactly if its last step is a read and what it
      read is the reason: no approval, one that is decided, or one that withholds a request for changes. */
  method HandleDecision(s0: State, w: nat, decision: Decision, comment: bool, others: seq<seq<Step>>)
    returns (s: State, outcome: Outcome, ghost steps: seq<Step>)
    requires w !in s0.deciders && decision != Expire && |others| == 10 && forall i :: 0 <= i < |others| ==> ByOthers(others[i], w)
    ensures s == Run(s0, steps)
    ensures w in s.deciders && s.deciders[w].Finished? && s.deciders[w] == Finished(decision, s0.stamp, outcome, s.deciders[w].end)
    ensures outcome == CommentMissing <==> decision == RequestChanges && !comment
    ensures outcome == Committed ==>
              s.phase == match decision case Approve => Approved case Deny => Denied case RequestChanges => ChangesRequested case Expire => Expired
    ensures steps != []
    ensures var seen, told := Run(s0, steps[..|steps| - 1]), steps[|steps| - 1] == Get(w);
            && (outcome == NotFound <==> told && !seen.alive)
            && (outcome == AlreadyDecided <==> told && seen.alive && seen.phase != Pending)
            && (outcome == NotPermitted <==>
                  && told && seen.alive && seen.phase == Pending && decision == RequestChanges
                  && (|| seen.spec.allowRequestChanges == Some(false)
                      || seen.spec.reviewCycle >= if seen.spec.maxReviewCycles <= 0 then 3 else seen.spec.maxReviewCycles))
  {
    hide Run, Permitted, Next, Commit;
    NoSteps(s0);
    BeginStep(s0, w, decision, comment);
    steps := Then(s0, [], Begin(w, decision, comment));
    assert steps[|steps| - 1] != Get(w);
    s := s0;
    if decision == RequestChanges && !comment {
      outcome := CommentMissing;
      s := s.(deciders := s.deciders[w := Finished(decision, s.stamp, outcome, s.stamp)]);
      return;
    }
    s := s.(deciders := s.deciders[w := Reading(decision, s.stamp, 0)]);
    for attempt := 0 to ATTEMPTS
      invariant s == Run(s0, steps) && w in s.deciders && steps != [] && steps[|steps| - 1] != Get(w)
      invariant attempt < ATTEMPTS ==> s.deciders[w] == Reading(decision, s0.stamp, attempt)
      invariant attempt == ATTEMPTS ==> s.deciders[w].Finished? && s.deciders[w] == Finished(decision, s0.stamp, Exhausted, s.deciders[w].end)
    {
      Extend(s0, steps, others[2 * attempt], w, Get(w));
      ghost var before := steps;
      steps := steps + others[2 * attempt] + [Get(w)];
      s := Run(s, others[2 * attempt]);
      GetStep(s, w, decision, s0.stamp, attempt);
      PermittedMeans(s.spec, decision);
      assert steps[..|steps| - 1] == before + others[2 * attempt];
      RunConcat(s0, before, others[2 * attempt]);
      if !s.alive || s.phase != Pending || !Permitted(s.spec, decision) {
        outcome := if !s.alive then NotFound else if s.phase != Pending then AlreadyDecided else NotPermitted;
        s := s.(deciders := s.deciders[w := Finished(decision, s0.stamp, outcome, s.stamp)]);
        return;
      }
      var read := ReadOf(s);
      s := s.(deciders := s.deciders[w := Writing(decision, s0.stamp, attempt, read)]);
      Extend(s0, steps, others[2 * attempt + 1], w, Put(w));
      steps := steps + others[2 * attempt + 1] + [Put(w)];
      s := Run(s, others[2 * attempt + 1]);
      PutStep(s, w, decision, s0.stamp, attempt, read);
      if s.alive && s.version == read.version {
        outcome := Committed;
        ghost var s1 := s.(deciders := s.deciders[w := Finished(decision, s0.stamp, outcome, s.stamp)]);
        s := Commit(s.(deciders := s.deciders[w := Finished(decision, s0.stamp, outcome, s.stamp)]), w, decision, read);
        CommitLeaves(s1, w, decision, read);
        return;
      }
      s := s.(deciders := s.deciders[w :=
        if attempt + 1 < ATTEMPTS then Reading(decision, s0.stamp, attempt + 1)
        else Finished(decision, s0.stamp, Exhausted, s.stamp)]);
    }
    outcome := Exhausted;
  }

  lemma CommitLeaves(s: State, w: nat, decision: Decision, read: Read)
    ensures Commit(s, w, decision, read).deciders == s.deciders
    ensures Commit(s, w, decision, read).phase
         == match decision case Approve => Approved case Deny => Denied case RequestChanges => ChangesRequested case Expire => Expired
  {
  }

  /** The controller's expiry: it reads, and writes under the version it read, once; a conflict is ignored. */
  method ExpireOverdue(s0: State, w: nat, others: seq<Step>) returns (s: State, ghost steps: seq<Step>)
    requires w !in s0.deciders && ByOthers(others, w)
    ensures s == Run(s0, steps) && w in s.deciders && s.deciders[w].Finished?
    ensures s.deciders[w].outcome == if !s0.alive then NotFound
                                     else if s0.phase != Pending then AlreadyDecided
                                     else if Run(s0, others).alive && Run(s0, others).version == s0.version then Committed else Dropped
  {
    hide Run, Permitted, Next;
    NoSteps(s0);
    BeginStep(s0, w, Expire, false);
    steps := Then(s0, [], Begin(w, Expire, false));
    GetStep(Run(s0, steps), w, Expire, s0.stamp, 0);
    steps := Then(s0, steps, Get(w));
    s := s0;
    var read := ReadOf(s);
    assert Permitted(s.spec, Expire) by { AlwaysPermitted(s.spec); }
    if !s.alive || s.phase != Pending {
      s := s.(deciders := s.deciders[w := Finished(Expire, s.stamp, if !s.alive then NotFound else AlreadyDecided, s.stamp)]);
      return;
    }
    s := s.(deciders := s.deciders[w := Writing(Expire, s.stamp, 0, read)]);
    assert s0.deciders[w := Reading(Expire, s0.stamp, 0)][w := Writing(Expire, s0.stamp, 0, read)] == s.deciders;
    Extend(s0, steps, others, w, Put(w));
    OthersSame(s0, s, others, w);
    steps := steps + others + [Put(w)];
    s := Run(s, others);
    PutStep(s, w, Expire, s0.stamp, 0, read);
    if s.alive && s.version == read.version {
      s := Commit(s.(deciders := s.deciders[w := Finished(Expire, s0.stamp, Committed, s.stamp)]), w, Expire, read);
    } else {
      s := s.(deciders := s.deciders[w := Finished(Expire, s0.stamp, Dropped, s.stamp)]);
    }
  }

  lemma AlwaysPermitted(spec: Spec)
    ensures Permitted(spec, Expire)
  {
  }

  /** Others take the same steps whether `w` is there or not. */
  lemma {:induction false} OthersSame(s: State, t: State, steps: seq<Step>, w: nat)
    requires ByOthers(steps, w) && w !in s.deciders && w in t.deciders && t == s.(deciders := s.deciders[w := t.deciders[w]])
    ensures w !in Run(s, steps).deciders
    ensures Run(t, steps) == Run(s, steps).(deciders := Run(s, steps).deciders[w := t.deciders[w]])
  {
    hide Next;
    if steps != [] {
      var init, step := steps[..|steps| - 1], steps[|steps| - 1];
      OthersSame(s, t, init, w);
      assert !TakenBy(step, w);
      OtherSame(Run(s, init), Run(t, init), step, w);
    }
  }

  lemma OtherSame(s: State, t: State, step: Step, w: nat)
    requires !TakenBy(step, w) && w !in s.deciders && w in t.deciders && t == s.(deciders := s.deciders[w := t.deciders[w]])
    ensures w !in Next(s, step).deciders
    ensures Next(t, step) == Next(s, step).(deciders := Next(s, step).deciders[w := t.deciders[w]])
  {
    if ByDecider(step) {
      OtherDeciderSame(s, t, step, w);
    } else {
      hide Passes;
      if step.Store? {
        SamePasses(s, t, step);
      }
    }
  }

  lemma SamePasses(s: State, t: State, step: Step)
    requires step.Store? && t.appliers == s.appliers && t.alive == s.alive && t.version == s.version
    ensures Passes(s, step.applier) <==> Passes(t, step.applier)
  {
  }

  lemma OtherDeciderSame(s: State, t: State, step: Step, w: nat)
    requires ByDecider(step) && step.who != w && w !in s.deciders && w in t.deciders && t == s.(deciders := s.deciders[w := t.deciders[w]])
    ensures w !in Next(s, step).deciders
    ensures Next(t, step) == Next(s, step).(deciders := Next(s, step).deciders[w := t.deciders[w]])
  {
    hide Act, PhaseOf, ReadOf;
    var d := DeciderAt(s, step.who);
    assert d == DeciderAt(t, step.who);
    assert Act(s, d, step) == Act(t, d, step) by { SameRead(s, t); SameAct(s, t, d, step); }
    var x := Act(s, d, step);
    if x.Some? {
      assert s.deciders[w := t.deciders[w]][step.who := x.value] == s.deciders[step.who := x.value][w := t.deciders[w]];
    }
  }

  lemma SameRead(s: State, t: State)
    requires t.version == s.version && t.spec == s.spec && t.life == s.life && t.stamp == s.stamp
    ensures ReadOf(t) == ReadOf(s)
  {
  }

  lemma SameAct(s: State, t: State, d: Option<Decider>, step: Step)
    requires ByDecider(step) && t.alive == s.alive && ReadOf(t) == ReadOf(s) && t.phase == s.phase
    ensures Act(s, d, step) == Act(t, d, step)
  {
    hide Permitted;
  }

  lemma NoSteps(s: State)
    ensures Run(s, []) == s
  {
  }
}
