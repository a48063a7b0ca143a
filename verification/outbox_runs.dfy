/** Interleavings of operators' reads and commits with dispatchers' claims and completions. */
module OutboxRuns {
  import opened Records
  import opened Outbox
  import Text

  /** Work in flight; `at` is the number of recoveries of the event when its copy was read. */
  datatype InFlight = InFlight(draft: Draft, at: nat)
  datatype Copy = Copy(id: string, item: Event, at: nat)

  datatype World = World(events: map<string, Event>, audits: seq<Audit>, requests: map<string, InFlight>,
                         copies: map<string, Copy>)

  const EMPTY := World(map[], [], map[], map[])

  /** One step of an operator, a dispatcher or a publisher. A step that is refused changes nothing. */
  datatype Step =
    | Publish(id: string, organization: string, now: Time)
    | Read(operator: string, request: Request)
    | Commit(operator: string, auditOk: bool)
    | Claim(worker: string, id: string, now: Time, staleBefore: Time)
    | Complete(worker: string, outcome: Outcome, now: Time)

  /** The recoveries of one event, in the order in which they were committed. */
  function LogOf(id: string, audits: seq<Audit>): (log: seq<Entry>)
    ensures |log| <= |audits|
  {
    if audits == [] then []
    else
      var last := audits[|audits| - 1];
      LogOf(id, audits[..|audits| - 1]) + if last.id == id then [last.entry] else []
  }

  function Next(w: World, step: Step): World {
    match step
    case Publish(id, organization, now) =>
      if id in w.events then w
      else w.(events := w.events[id := Fresh(organization, now)])
    case Read(operator, request) =>
      var d := Drafted(w.events, request);
      if d.Err? then w
      else w.(requests := w.requests[operator := InFlight(d.value, |LogOf(d.value.id, w.audits)|)])
    case Commit(operator, auditOk) =>
      if operator !in w.requests then w
      else
        var d := w.requests[operator].draft;
        var rest := w.requests - {operator};
        if Commits(w.events, d, auditOk)
        then w.(events := w.events[d.id := d.item], audits := w.audits + [Audit(d.id, d.entry)], requests := rest)
        else w.(requests := rest)
    case Claim(worker, id, now, staleBefore) =>
      if id !in w.events || !Claimable(w.events[id], now, staleBefore) then w
      else
        var e := Claimed(w.events[id], now);
        w.(events := w.events[id := e], copies := w.copies[worker := Copy(id, e, |LogOf(id, w.audits)|)])
    case Complete(worker, outcome, now) =>
      if worker !in w.copies then w
      else
        var c := w.copies[worker];
        if c.id !in w.events then w
        else w.(events := w.events[c.id := Dispatched(c.item, outcome, now)], copies := w.copies - {worker})
  }

  /** The step is a commit that succeeds. */
  predicate Lands(w: World, step: Step) {
    step.Commit? && step.operator in w.requests && Commits(w.events, w.requests[step.operator].draft, step.auditOk)
  }

  function Run(steps: seq<Step>): World {
    if steps == [] then EMPTY else Next(Run(steps[..|steps| - 1]), steps[|steps| - 1])
  }

  // ----- accounting -----

  /** Seen from outside: the step moved the event from a recoverable status back to pending. */
  predicate Moved(id: string, before: World, after: World) {
    && id in before.events && id in after.events
    && before.events[id].status in {Errored, DeadLetter} && after.events[id].status == Pending
  }

  /** The statuses the event was recovered from, as an observer of its status sees them. */
  function Moves(id: string, steps: seq<Step>): seq<EventStatus> {
    if steps == [] then []
    else
      var init := steps[..|steps| - 1];
      var before, after := Run(init), Run(steps);
      Moves(id, init) + if Moved(id, before, after) then [before.events[id].status] else []
  }

  /** Commits that were answered with success. */
  function Successes(steps: seq<Step>): nat {
    if steps == [] then 0
    else
      var init, step := steps[..|steps| - 1], steps[|steps| - 1];
      var w := Run(init);
      Successes(init) +
      if Lands(w, step) then 1 else 0
  }

  function Sources(log: seq<Entry>): (r: seq<EventStatus>)
    ensures |r| == |log|
  {
    if log == [] then [] else Sources(log[..|log| - 1]) + [log[|log| - 1].previous]
  }

  /** A draft goes from a recoverable status to pending, and its entry says so. */
  ghost predicate DraftOk(d: Draft) {
    && d.previous in {Errored, DeadLetter} && d.item.status == Pending
    && d.entry.previous == d.previous && d.previous == Required(d.entry.action)
  }

  ghost predicate DraftsOk(w: World) {
    && (forall o | o in w.requests :: DraftOk(w.requests[o].draft) && w.requests[o].draft.id in w.events)
    && (forall k | k in w.copies :: w.copies[k].item.status == Processing && w.copies[k].id in w.events)
  }

  lemma OperatorDraftsOk(w: World, step: Step)
    requires DraftsOk(w) && (step.Read? || step.Commit?)
    ensures DraftsOk(Next(w, step))
  {
  }

  lemma DispatcherDraftsOk(w: World, step: Step)
    requires DraftsOk(w) && !step.Read? && !step.Commit?
    ensures DraftsOk(Next(w, step))
  {
  }

  lemma {:induction false} RunDraftsOk(steps: seq<Step>)
    ensures DraftsOk(Run(steps))
  {
    if steps == [] {
    } else {
      var init, step := steps[..|steps| - 1], steps[|steps| - 1];
      RunDraftsOk(init);
      if step.Read? || step.Commit? {
        OperatorDraftsOk(Run(init), step);
      } else {
        DispatcherDraftsOk(Run(init), step);
      }
    }
  }

  /** Retries are of events that have failed for now, requeues of events that have failed for good. */
  ghost predicate ByAction(e: Entry) {
    && (e.action == Retry <==> e.previous == Errored)
    && (e.action == Requeue <==> e.previous == DeadLetter)
  }

  /** Whatever the interleaving, every audit record says so. */
  lemma {:induction false} AuditedByAction(steps: seq<Step>)
    ensures forall a | a in Run(steps).audits :: ByAction(a.entry)
  {
    if steps == [] {
    } else {
      var init, step := steps[..|steps| - 1], steps[|steps| - 1];
      AuditedByAction(init);
      RunDraftsOk(init);
      LandedByAction(Run(init), step);
    }
  }

  lemma LandedByAction(w: World, step: Step)
    requires DraftsOk(w) && forall a | a in w.audits :: ByAction(a.entry)
    ensures forall a | a in Next(w, step).audits :: ByAction(a.entry)
  {
  }

  lemma LogStep(id: string, audits: seq<Audit>, a: Audit)
    ensures LogOf(id, audits + [a]) == LogOf(id, audits) + if a.id == id then [a.entry] else []
  {
    assert (audits + [a])[..|audits|] == audits;
  }

  lemma SourcesStep(log: seq<Entry>, e: Entry)
    ensures Sources(log + [e]) == Sources(log) + [e.previous]
  {
    assert (log + [e])[..|log|] == log;
  }

  /** Only a commit that succeeds adds to a log. */
  lemma LogNext(id: string, w: World, step: Step)
    ensures !Lands(w, step) ==> Next(w, step).audits == w.audits
    ensures Lands(w, step) ==>
              var d := w.requests[step.operator].draft;
              LogOf(id, Next(w, step).audits) == LogOf(id, w.audits) + if d.id == id then [d.entry] else []
  {
    if Lands(w, step) {
      var d := w.requests[step.operator].draft;
      LogStep(id, w.audits, Audit(d.id, d.entry));
    }
  }

  lemma CommitMoves(id: string, w: World, d: Draft, v: World)
    requires DraftOk(d) && Commits(w.events, d, true)
    requires v.events == w.events[d.id := d.item] && v.audits == w.audits + [Audit(d.id, d.entry)]
    ensures Sources(LogOf(id, v.audits)) == Sources(LogOf(id, w.audits)) + if Moved(id, w, v)
            then [w.events[id].status] else []
  {
    LogStep(id, w.audits, Audit(d.id, d.entry));
    var log := LogOf(id, w.audits);
    if d.id == id {
      SourcesStep(log, d.entry);
    } else {
      assert log + [] == log;
    }
  }

  lemma OthersDoNotMove(id: string, w: World, step: Step)
    requires DraftsOk(w)
    requires !Lands(w, step)
    ensures Next(w, step).audits == w.audits && !Moved(id, w, Next(w, step))
  {
  }

  /** Whatever the interleaving, the audit trail of an event lists exactly its moves back to pending, in order. */
  lemma {:induction false} AuditsAreMoves(id: string, steps: seq<Step>)
    ensures Sources(LogOf(id, Run(steps).audits)) == Moves(id, steps)
  {
    if steps == [] {
    } else {
      var init, step := steps[..|steps| - 1], steps[|steps| - 1];
      AuditsAreMoves(id, init);
      RunDraftsOk(init);
      var w := Run(init);
      if Lands(w, step) {
        CommitMoves(id, w, w.requests[step.operator].draft, Next(w, step));
      } else {
        OthersDoNotMove(id, w, step);
      }
    }
  }

  /** One success, one audit record. */
  lemma {:induction false} SuccessesAreAudits(steps: seq<Step>)
    ensures Successes(steps) == |Run(steps).audits|
  {
    if steps == [] {
    } else {
      SuccessesAreAudits(steps[..|steps| - 1]);
    }
  }

  /** The step is a dispatcher's write of a failed outcome over this event. */
  predicate FailedDispatch(id: string, before: World, step: Step) {
    step.Complete? && step.outcome.Failed? && step.worker in before.copies && before.copies[step.worker].id == id
  }

  lemma RecoverableBefore(id: string, w: World, step: Step)
    requires DraftsOk(w) && !FailedDispatch(id, w, step)
    requires id in Next(w, step).events && Next(w, step).events[id].status in {Errored, DeadLetter}
    ensures id in w.events && w.events[id].status in {Errored, DeadLetter}
  {
  }

  /** An event that is pending and later recoverable has had a failed dispatch in between. */
  lemma {:induction false} OnlyFailureMakesRecoverable(id: string, steps: seq<Step>, i: nat)
    requires i < |steps|
    requires id in Run(steps[..i]).events && Run(steps[..i]).events[id].status == Pending
    requires id in Run(steps).events && Run(steps).events[id].status in {Errored, DeadLetter}
    ensures exists k :: i <= k < |steps| && FailedDispatch(id, Run(steps[..k]), steps[k])
  {
    var n := |steps| - 1;
    var init := steps[..n];
    RunDraftsOk(init);
    assert i <= n && init[..i] == steps[..i];
    if FailedDispatch(id, Run(init), steps[n]) {
      assert FailedDispatch(id, Run(steps[..n]), steps[n]);
    } else {
      RecoverableBefore(id, Run(init), steps[n]);
      if i < n {
        OnlyFailureMakesRecoverable(id, init, i);
        var k :| i <= k < |init| && FailedDispatch(id, Run(init[..k]), init[k]);
        assert init[..k] == steps[..k];
        assert FailedDispatch(id, Run(steps[..k]), steps[k]);
      }
    }
  }

  /** Step `k` of the run recovers the event. */
  predicate RecoveredBy(id: string, steps: seq<Step>, k: nat)
    requires k < |steps|
  {
    Moved(id, Run(steps[..k]), Run(steps[..k + 1]))
  }

  /** Between two recoveries of one event a dispatcher has tried it again and failed. */
  lemma RecoveriesAlternate(id: string, steps: seq<Step>, i: nat, j: nat)
    requires i < j < |steps| && RecoveredBy(id, steps, i) && RecoveredBy(id, steps, j)
    ensures exists k :: i < k < j && FailedDispatch(id, Run(steps[..k]), steps[k])
  {
    var prefix := steps[..j];
    assert i + 1 != j;
    assert prefix[..i + 1] == steps[..i + 1];
    OnlyFailureMakesRecoverable(id, prefix, i + 1);
    var k :| i + 1 <= k < |prefix| && FailedDispatch(id, Run(prefix[..k]), prefix[k]);
    assert prefix[..k] == steps[..k];
  }

  // ----- the bounded history -----

  /** Every stored history is the end of the full recovery log of its event. */
  ghost predicate Exact(w: World) {
    forall id | id in w.events :: w.events[id].history == LastTen(LogOf(id, w.audits))
  }

  /** The step writes a copy that was read before some recovery of the event. */
  predicate Stale(w: World, step: Step) {
    match step
    case Commit(operator, auditOk) =>
      && operator in w.requests && Commits(w.events, w.requests[operator].draft, auditOk)
      && w.requests[operator].at != |LogOf(w.requests[operator].draft.id, w.audits)|
    case Complete(worker, _, _) =>
      && worker in w.copies && w.copies[worker].id in w.events
      && w.copies[worker].at != |LogOf(w.copies[worker].id, w.audits)|
    case _ => false
  }

  ghost predicate NeverStale(steps: seq<Step>) {
    forall k | 0 <= k < |steps| :: !Stale(Run(steps[..k]), steps[k])
  }

  ghost predicate AlwaysExact(steps: seq<Step>) {
    forall k | 0 <= k <= |steps| :: Exact(Run(steps[..k]))
  }

  /** What work in flight knows of the log. */
  ghost predicate CopiesOk(w: World) {
    && (forall o | o in w.requests ::
          var d, log := w.requests[o].draft, LogOf(w.requests[o].draft.id, w.audits);
          w.requests[o].at <= |log| && d.item.history == LastTen(log[..w.requests[o].at] + [d.entry]))
    && (forall k | k in w.copies ::
          var log := LogOf(w.copies[k].id, w.audits);
          w.copies[k].at <= |log| && w.copies[k].item.history == LastTen(log[..w.copies[k].at]))
  }

  /** Taking the last ten of a shortened log loses nothing that the next ten need. */
  lemma LastTenStep(log: seq<Entry>, e: Entry)
    ensures LastTen(LastTen(log) + [e]) == LastTen(log + [e])
  {
  }

  /** Committing a draft that knows the whole log keeps every history exact. */
  lemma CommitExact(w: World, d: Draft, v: World)
    requires Exact(w) && v.events == w.events[d.id := d.item] && v.audits == w.audits + [Audit(d.id, d.entry)]
    requires d.item.history == LastTen(LogOf(d.id, w.audits) + [d.entry])
    ensures Exact(v)
  {
    forall id | id in v.events ensures v.events[id].history == LastTen(LogOf(id, v.audits)) {
      LogStep(id, w.audits, Audit(d.id, d.entry));
      if id != d.id {
        assert LogOf(id, w.audits) + [] == LogOf(id, w.audits);
      }
    }
  }

  lemma CopyKept(id: string, at: nat, audits: seq<Audit>, a: Audit)
    requires at <= |LogOf(id, audits)|
    ensures at <= |LogOf(id, audits + [a])| && LogOf(id, audits + [a])[..at] == LogOf(id, audits)[..at]
  {
    LogStep(id, audits, a);
  }

  /** What work in flight knows of a log stays true while the log grows. */
  lemma CommitCopies(w: World, a: Audit, v: World)
    requires CopiesOk(w) && v.audits == w.audits + [a] && v.copies == w.copies
    requires forall o | o in v.requests :: o in w.requests && v.requests[o] == w.requests[o]
    ensures CopiesOk(v)
  {
    forall o | o in v.requests
      ensures var r, log := v.requests[o], LogOf(v.requests[o].draft.id, v.audits);
              r.at <= |log| && r.draft.item.history == LastTen(log[..r.at] + [r.draft.entry])
    {
      CopyKept(w.requests[o].draft.id, w.requests[o].at, w.audits, a);
    }
    forall k | k in v.copies
      ensures var c, log := v.copies[k], LogOf(v.copies[k].id, v.audits);
              c.at <= |log| && c.item.history == LastTen(log[..c.at])
    {
      CopyKept(w.copies[k].id, w.copies[k].at, w.audits, a);
    }
  }

  lemma CommitKeeps(w: World, step: Step)
    requires step.Commit? && Exact(w) && CopiesOk(w) && !Stale(w, step)
    ensures Exact(Next(w, step)) && CopiesOk(Next(w, step))
  {
    if Lands(w, step) {
      var d := w.requests[step.operator].draft;
      var log := LogOf(d.id, w.audits);
      assert log[..|log|] == log;
      CommitExact(w, d, Next(w, step));
      CommitCopies(w, Audit(d.id, d.entry), Next(w, step));
    }
  }

  lemma PublishKeeps(w: World, step: Step)
    requires step.Publish? && Exact(w) && CopiesOk(w)
    requires step.id !in w.events ==> LogOf(step.id, w.audits) == []
    ensures Exact(Next(w, step)) && CopiesOk(Next(w, step))
  {
  }

  lemma ReadKeeps(w: World, step: Step)
    requires step.Read? && Exact(w) && CopiesOk(w)
    ensures Exact(Next(w, step)) && CopiesOk(Next(w, step))
  {
    var d := Drafted(w.events, step.request);
    if d.Ok? {
      var log := LogOf(d.value.id, w.audits);
      assert log[..|log|] == log;
      LastTenStep(log, d.value.entry);
      assert d.value.item.history == LastTen(log + [d.value.entry]);
    }
  }

  lemma ClaimKeeps(w: World, step: Step)
    requires step.Claim? && Exact(w) && CopiesOk(w)
    ensures Exact(Next(w, step)) && CopiesOk(Next(w, step))
  {
    var log := LogOf(step.id, w.audits);
    assert log[..|log|] == log;
  }

  lemma CompleteKeeps(w: World, step: Step)
    requires step.Complete? && Exact(w) && CopiesOk(w) && !Stale(w, step)
    ensures Exact(Next(w, step)) && CopiesOk(Next(w, step))
  {
    if step.worker in w.copies {
      var c := w.copies[step.worker];
      var log := LogOf(c.id, w.audits);
      assert log[..|log|] == log;
      assert Dispatched(c.item, step.outcome, step.now).history == c.item.history;
    }
  }

  lemma EventsStay(id: string, w: World, step: Step)
    ensures id !in Next(w, step).events ==> id !in w.events
  {
  }

  lemma {:induction false} UnpublishedHasNoLog(steps: seq<Step>, id: string)
    requires id !in Run(steps).events
    ensures LogOf(id, Run(steps).audits) == []
  {
    if steps == [] {
    } else {
      var init, step := steps[..|steps| - 1], steps[|steps| - 1];
      EventsStay(id, Run(init), step);
      UnpublishedHasNoLog(init, id);
      LogNext(id, Run(init), step);
    }
  }

  lemma PrefixExact(steps: seq<Step>, n: nat)
    requires AlwaysExact(steps) && n <= |steps|
    ensures AlwaysExact(steps[..n])
  {
    forall k | 0 <= k <= n ensures Exact(Run(steps[..n][..k])) {
      assert steps[..n][..k] == steps[..k];
    }
  }

  lemma PrefixNeverStale(steps: seq<Step>, n: nat)
    requires NeverStale(steps) && n <= |steps|
    ensures NeverStale(steps[..n])
  {
    forall k | 0 <= k < n ensures !Stale(Run(steps[..n][..k]), steps[..n][k]) {
      assert steps[..n][..k] == steps[..k];
    }
  }

  lemma {:induction false} NeverStaleIsExact(steps: seq<Step>)
    requires NeverStale(steps)
    ensures Exact(Run(steps)) && CopiesOk(Run(steps))
  {
    if steps == [] {
    } else {
      var n := |steps| - 1;
      var init, step := steps[..n], steps[n];
      PrefixNeverStale(steps, n);
      NeverStaleIsExact(init);
      assert !Stale(Run(steps[..n]), steps[n]);
      match step
      case Publish(id, _, _) =>
        if id !in Run(init).events { UnpublishedHasNoLog(init, id); }
        PublishKeeps(Run(init), step);
      case Read(_, _) => ReadKeeps(Run(init), step);
      case Commit(_, _) => CommitKeeps(Run(init), step);
      case Claim(_, _, _, _) => ClaimKeeps(Run(init), step);
      case Complete(_, _, _) => CompleteKeeps(Run(init), step);
    }
  }

  ghost predicate Within(history: seq<Entry>, log: seq<Entry>) {
    |history| <= HISTORY_LIMIT && forall e | e in history :: e in log
  }

  /** Everything stored or in flight is made of logged entries. */
  ghost predicate Genuine(w: World) {
    && (forall id | id in w.events :: Within(w.events[id].history, LogOf(id, w.audits)))
    && (forall k | k in w.copies :: Within(w.copies[k].item.history, LogOf(w.copies[k].id, w.audits)))
    && (forall o | o in w.requests ::
          var d := w.requests[o].draft;
          Within(d.item.history, LogOf(d.id, w.audits) + [d.entry]))
  }

  lemma CommitGenuine(w: World, d: Draft, v: World)
    requires Genuine(w) && v.events == w.events[d.id := d.item] && v.audits == w.audits + [Audit(d.id, d.entry)]
    requires Within(d.item.history, LogOf(d.id, w.audits) + [d.entry])
    requires v.copies == w.copies && forall o | o in v.requests :: o in w.requests && v.requests[o] == w.requests[o]
    ensures Genuine(v)
  {
    forall id ensures forall e | e in LogOf(id, w.audits) :: e in LogOf(id, v.audits) {
      LogStep(id, w.audits, Audit(d.id, d.entry));
    }
    LogStep(d.id, w.audits, Audit(d.id, d.entry));
  }

  lemma OperatorGenuine(w: World, step: Step)
    requires Genuine(w) && !Lands(w, step) && (step.Read? || step.Commit?)
    ensures Genuine(Next(w, step))
  {
  }

  lemma DispatcherGenuine(w: World, step: Step)
    requires Genuine(w) && !step.Read? && !step.Commit?
    ensures Genuine(Next(w, step))
  {
  }

  /**
   Even stale writes only lose entries: a stored history never
   exceeds ten entries, all of them from the log of its event.
   */
  lemma {:induction false} HistoryGenuine(steps: seq<Step>)
    ensures Genuine(Run(steps))
  {
    if steps == [] {
    } else {
      var init, step := steps[..|steps| - 1], steps[|steps| - 1];
      HistoryGenuine(init);
      var w := Run(init);
      if Lands(w, step) {
        CommitGenuine(w, w.requests[step.operator].draft, Next(w, step));
      } else {
        if step.Read? || step.Commit? {
          OperatorGenuine(w, step);
        } else {
          DispatcherGenuine(w, step);
        }
      }
    }
  }

  ghost predicate NoRepeats(log: seq<Entry>) {
    forall i, j | 0 <= i < j < |log| :: log[i] != log[j]
  }

  /** A history that stops short of the log differs from its last ten entries. */
  lemma ShortDiffers(log: seq<Entry>, at: nat)
    requires NoRepeats(log) && at < |log|
    ensures LastTen(log[..at]) != LastTen(log)
  {
    if |LastTen(log[..at])| == |LastTen(log)| {
      assert LastTen(log[..at])[9] == log[at - 1];
      assert LastTen(log)[9] == log[|log| - 1];
    }
  }

  lemma GapDiffers(log: seq<Entry>, at: nat, e: Entry)
    requires NoRepeats(log + [e]) && at < |log|
    ensures LastTen(log[..at] + [e]) != LastTen(log + [e])
  {
    var kept, full := log[..at] + [e], log + [e];
    if |LastTen(kept)| == |LastTen(full)| {
      assert LastTen(kept)[8] == log[at - 1] == full[at - 1];
      assert LastTen(full)[8] == full[|log| - 1];
    }
  }

  /** A stale write is visible at once, unless two recoveries of the event left the same entry. */
  lemma StaleBreaks(w: World, step: Step)
    requires CopiesOk(w) && Stale(w, step)
    requires forall id :: NoRepeats(LogOf(id, Next(w, step).audits))
    ensures !Exact(Next(w, step))
  {
    var v := Next(w, step);
    if step.Commit? {
      var r := w.requests[step.operator];
      var log := LogOf(r.draft.id, w.audits);
      LogStep(r.draft.id, w.audits, Audit(r.draft.id, r.draft.entry));
      GapDiffers(log, r.at, r.draft.entry);
      assert v.events[r.draft.id].history != LastTen(LogOf(r.draft.id, v.audits));
    } else {
      var c := w.copies[step.worker];
      ShortDiffers(LogOf(c.id, w.audits), c.at);
      assert v.events[c.id].history != LastTen(LogOf(c.id, v.audits));
    }
  }

  lemma {:induction false} LogsGrow(steps: seq<Step>, k: nat, id: string)
    requires k <= |steps|
    ensures LogOf(id, Run(steps[..k]).audits) <= LogOf(id, Run(steps).audits)
    decreases |steps|
  {
    if k == |steps| {
      assert steps[..k] == steps;
    } else {
      var init, step := steps[..|steps| - 1], steps[|steps| - 1];
      assert init[..k] == steps[..k];
      LogsGrow(init, k, id);
      LogNext(id, Run(init), step);
    }
  }

  lemma NeverStaleExtends(init: seq<Step>, step: Step)
    requires NeverStale(init) && !Stale(Run(init), step)
    ensures NeverStale(init + [step])
  {
    var steps := init + [step];
    forall k | 0 <= k < |steps| ensures !Stale(Run(steps[..k]), steps[k]) {
      if k < |init| {
        assert steps[..k] == init[..k];
      } else {
        assert steps[..k] == init;
      }
    }
  }

  lemma {:induction false} ExactIsNeverStale(steps: seq<Step>)
    requires AlwaysExact(steps)
    requires forall id :: NoRepeats(LogOf(id, Run(steps).audits))
    ensures NeverStale(steps)
  {
    if steps == [] {
    } else {
      var n := |steps| - 1;
      var init, step := steps[..n], steps[n];
      PrefixExact(steps, n);
      forall id ensures NoRepeats(LogOf(id, Run(init).audits)) {
        LogsGrow(steps, n, id);
      }
      ExactIsNeverStale(init);
      NeverStaleIsExact(init);
      assert steps[..n + 1] == steps;
      assert Exact(Run(steps));
      if Stale(Run(init), step) {
        StaleBreaks(Run(init), step);
      }
      NeverStaleExtends(init, step);
      assert init + [step] == steps;
    }
  }

  /**
   The stored history stays the last ten entries of the full log exactly in the runs where nobody writes
   a copy that was read before a recovery of the same event. The compare-and-swap guards the status only.
   Two recoveries of one event with equal entries could hide a stale write, and nothing else could.
   */
  lemma HistoryExactly(steps: seq<Step>)
    ensures NeverStale(steps) ==> AlwaysExact(steps)
    ensures (forall id :: NoRepeats(LogOf(id, Run(steps).audits))) ==> (AlwaysExact(steps) <==> NeverStale(steps))
  {
    if AlwaysExact(steps) && forall id :: NoRepeats(LogOf(id, Run(steps).audits)) {
      ExactIsNeverStale(steps);
    }
    if NeverStale(steps) {
      forall k | 0 <= k <= |steps| ensures Exact(Run(steps[..k])) {
        PrefixNeverStale(steps, k);
        NeverStaleIsExact(steps[..k]);
      }
    }
  }

  lemma RunStep(steps: seq<Step>, step: Step)
    ensures Run(steps + [step]) == Next(Run(steps), step)
  {
    assert (steps + [step])[..|steps|] == steps;
  }

  /** The first delivery of an event fails. */
  const PUBLISHED: seq<Step> := [] + [Publish("e", "o", 0)]
  const FAILED_ONCE: seq<Step> := PUBLISHED + [Claim("w", "e", 0, 0)] + [Complete("w", Failed("x", false, 5), 1)]

  /** Two operators read it. */
  const BOTH_READ: seq<Step> := FAILED_ONCE + [ReadBy("a", 2)] + [ReadBy("b", 3)]

  /** The second one's retry is committed, and fails again. */
  const OVERTAKEN: seq<Step> := BOTH_READ + [Commit("b", true)] + [Claim("w", "e", 4, 0)]
    + [Complete("w", Failed("y", false, 5), 5)]

  /** Then the first one's is committed. */
  const LATE_COMMIT: seq<Step> := OVERTAKEN + [Commit("a", true)]

  function ReadBy(actor: string, now: Time): Step { Read(actor, Request("o", "e", Retry, actor, now)) }

  const NEW_EVENT := Event("o", Pending, 0, None, None, None, "", [], 0)
  const FAILED_EVENT := Event("o", Errored, 1, Some(6), None, None, "x", [], 1)

  function EntryBy(actor: string, now: Time): Entry { Entry(Retry, now, actor, Errored, 1, "x") }

  function DraftBy(actor: string, now: Time): Draft {
    Draft("e", FAILED_EVENT.(status := Pending, nextAttemptAt := None, updatedAt := now,
                             history := [EntryBy(actor, now)]), Errored, EntryBy(actor, now))
  }

  lemma PublishedRuns()
    ensures Run(PUBLISHED).events == map["e" := NEW_EVENT] && Run(PUBLISHED).audits == []
  {
    RunStep([], Publish("e", "o", 0));
  }

  lemma ClaimThenFail(w: World)
    requires w.events == map["e" := NEW_EVENT] && w.audits == []
    ensures var v := Next(Next(w, Claim("w", "e", 0, 0)), Complete("w", Failed("x", false, 5), 1));
            v.events == map["e" := FAILED_EVENT] && v.audits == []
  {
    var u := Next(w, Claim("w", "e", 0, 0));
    assert u.copies["w"].item == Claimed(NEW_EVENT, 0);
    assert Dispatched(Claimed(NEW_EVENT, 0), Failed("x", false, 5), 1) == FAILED_EVENT;
  }

  lemma FailedOnceRuns()
    ensures Run(FAILED_ONCE).events == map["e" := FAILED_EVENT] && Run(FAILED_ONCE).audits == []
  {
    PublishedRuns();
    ClaimThenFail(Run(PUBLISHED));
    RunStep(PUBLISHED, Claim("w", "e", 0, 0));
    RunStep(PUBLISHED + [Claim("w", "e", 0, 0)], Complete("w", Failed("x", false, 5), 1));
  }

  lemma ReadDrafts(w: World, actor: string, now: Time)
    requires w.events == map["e" := FAILED_EVENT] && w.audits == []
    ensures var v := Next(w, ReadBy(actor, now));
            && v.events == w.events && v.audits == []
            && v.requests == w.requests[actor := InFlight(DraftBy(actor, now), 0)]
  {
    var q := Request("o", "e", Retry, actor, now);
    assert !Text.IsBlank(q.id);
    assert [] + [EntryBy(actor, now)] == [EntryBy(actor, now)];
    assert Drafted(w.events, q) == Ok(DraftBy(actor, now));
  }

  lemma BothReadRuns()
    ensures var w := Run(BOTH_READ);
            && w.events == map["e" := FAILED_EVENT] && w.audits == [] && "a" in w.requests && "b" in w.requests
            && w.requests["a"].draft == DraftBy("a", 2) && w.requests["b"].draft == DraftBy("b", 3)
  {
    FailedOnceRuns();
    RunStep(FAILED_ONCE, ReadBy("a", 2));
    ReadDrafts(Run(FAILED_ONCE), "a", 2);
    RunStep(FAILED_ONCE + [ReadBy("a", 2)], ReadBy("b", 3));
    ReadDrafts(Run(FAILED_ONCE + [ReadBy("a", 2)]), "b", 3);
  }

  /** The second draft is committed. */
  lemma SecondCommits(w: World)
    requires w.events == map["e" := FAILED_EVENT] && w.audits == [] && "a" in w.requests && "b" in w.requests
    requires w.requests["a"].draft == DraftBy("a", 2) && w.requests["b"].draft == DraftBy("b", 3)
    ensures var v := Next(w, Commit("b", true));
            && v.events == map["e" := DraftBy("b", 3).item] && v.audits == [Audit("e", EntryBy("b", 3))]
            && "a" in v.requests && v.requests["a"].draft == DraftBy("a", 2)
  {
  }

  /** A pending event that is due is dispatched once more, and fails. */
  lemma FailsAgain(w: World)
    requires w.events == map["e" := DraftBy("b", 3).item]
    ensures var v := Next(Next(w, Claim("w", "e", 4, 0)), Complete("w", Failed("y", false, 5), 5));
            && "e" in v.events && v.events["e"].status == Errored && v.audits == w.audits && v.requests == w.requests
  {
    var u := Next(w, Claim("w", "e", 4, 0));
    assert u.copies["w"].item == Claimed(w.events["e"], 4);
  }

  lemma OvertakenRuns()
    ensures var w := Run(OVERTAKEN);
            && "e" in w.events && w.events["e"].status == Errored && w.audits == [Audit("e", EntryBy("b", 3))]
            && "a" in w.requests && w.requests["a"].draft == DraftBy("a", 2)
  {
    BothReadRuns();
    SecondCommits(Run(BOTH_READ));
    var s := BOTH_READ + [Commit("b", true)];
    RunStep(BOTH_READ, Commit("b", true));
    FailsAgain(Run(s));
    RunStep(s, Claim("w", "e", 4, 0));
    RunStep(s + [Claim("w", "e", 4, 0)], Complete("w", Failed("y", false, 5), 5));
  }

  /**
   A recovery that is overtaken by another one between its read and
   its commit still succeeds, and erases the other's entry.
   */
  lemma LateCommitLosesEntry()
    ensures Successes(LATE_COMMIT) == 2
    ensures LogOf("e", Run(LATE_COMMIT).audits) == [EntryBy("b", 3), EntryBy("a", 2)]
    ensures "e" in Run(LATE_COMMIT).events && Run(LATE_COMMIT).events["e"].history == [EntryBy("a", 2)]
  {
    OvertakenRuns();
    RunStep(OVERTAKEN, Commit("a", true));
    SuccessesAreAudits(LATE_COMMIT);
    var b, a := Audit("e", EntryBy("b", 3)), Audit("e", EntryBy("a", 2));
    LogStep("e", [], b);
    LogStep("e", [b], a);
    assert [] + [b] == [b];
  }
}
