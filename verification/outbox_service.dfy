/** The outbox with the work in flight around it; every step of `OutboxRuns` is a call of the store. */
module OutboxService {
  import opened Records
  import opened Outbox
  import opened OutboxRuns

  class OutboxSystem {
    const store: OutboxStore
    var requests: map<string, InFlight>
    var copies: map<string, Copy>

    function View(): World
      reads this, store
    {
      World(store.events, store.audits, requests, copies)
    }

    constructor ()
      ensures View() == EMPTY && fresh(store)
    {
      store := new OutboxStore();
      requests, copies := map[], map[];
    }

    method Perform(step: Step)
      modifies this, store
      ensures View() == Next(old(View()), step)
    {
      match step
      case Publish(id, organization, now) =>
        store.Publish(id, organization, now);
      case Read(operator, request) =>
        var d := store.Prepare(request);
        if d.Ok? {
          requests := requests[operator := InFlight(d.value, |LogOf(d.value.id, store.audits)|)];
        }
      case Commit(operator, auditOk) =>
        if operator in requests {
          var _ := store.Commit(requests[operator].draft, auditOk);
          requests := requests - {operator};
        }
      case Claim(worker, id, now, staleBefore) =>
        var copy := store.Claim(id, now, staleBefore);
        if copy.Some? {
          copies := copies[worker := Copy(id, copy.value, |LogOf(id, store.audits)|)];
        }
      case Complete(worker, outcome, now) =>
        if worker in copies && copies[worker].id in store.events {
          store.Complete(copies[worker].id, copies[worker].item, outcome, now);
          copies := copies - {worker};
        }
    }

    /** Any interleaving of calls leaves the world that the laws of `OutboxRuns` speak of. */
    method Replay(steps: seq<Step>)
      requires View() == EMPTY
      modifies this, store
      ensures View() == Run(steps)
    {
      for i := 0 to |steps|
        invariant View() == Run(steps[..i])
      {
        RunStep(steps[..i], steps[i]);
        assert steps[..i + 1] == steps[..i] + [steps[i]];
        Perform(steps[i]);
      }
      assert steps[..|steps|] == steps;
    }
  }
}
