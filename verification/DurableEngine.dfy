/** The bridge between the two views: an attempt's write, executed on the mutable store, does
    to the run exactly what the protocol says it does. */
module DurableEngine {
  import opened DurableTypes
  import opened DurableStore
  import opened DurableProtocol

  method Execute(store: Store, c: Config, id: RunId, me: Token, w: Write)
    requires store.Valid() && id in store.runs && c.takeover == store.takeover
    modifies store
    ensures store.Valid() && store.OnlyTouches(id)
    ensures store.Slice(id) == Commit(c, old(store.Slice(id)), me, w)
  {
    match w
    case Claim => var _ := store.TryClaim(id, me);
    case Heartbeat => var _ := store.Heartbeat(id, me);
    case Persist(run, rows, _, _) => var _ := store.PersistStep(id, me, run, rows);
    case Suspend(run, rows, _, call, question) => var _ := store.SetWaiting(id, me, run, call, question, rows);
    case Finish(status, reason, output, run, rows, _, _, _) =>
      var _ := store.Finish(id, me, status, reason, output, run, rows);
    case FailUnstorable(_) => var _ := store.FailUnstorable(id, me);
    case Release(_) => var _ := store.ReleaseLease(id, me);
    case Requeue => store.RequeueWithFreshJob(id, me);
  }
}
