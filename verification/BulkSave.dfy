/** Whole saves: all-or-nothing, exactly once, and bulk against one by one. */
module BulkSave {
  import opened BulkCreate
  import opened BulkTheorems

  // Save of the bulk builder: mutator 0 runs the chain; without builders nothing happens.
  function SaveAll<M, S, N, D, E>(job: Job<M, S, N, D, E>, s: State<M, S, N, D>): (r: (State<M, S, N, D>, Answer<E>))
    requires Fits(job, s)
    ensures Fits(job, r.0)
  {
    if |s.slots| == 0 then (s, Done) else RunHooks(job, 0, 0, s)
  }

  // What arrives at each core.
  function ReachedBy<M, S, N, D, E>(job: Job<M, S, N, D, E>, slots: seq<Slot<M, S, N>>): (reached: seq<Arrival<M, E>>)
    requires |slots| == |job.hooks|
    ensures |reached| == |slots| && forall j | 0 <= j < |slots| :: reached[j] == Reach(job.hooks[j], 0, slots[j].fields)
  {
    seq(|slots|, j requires 0 <= j < |slots| && |slots| == |job.hooks| => Reach(job.hooks[j], 0, slots[j].fields))
  }

  predicate AllPass<M, S, N, D, E>(job: Job<M, S, N, D, E>, reached: seq<Arrival<M, E>>)
  {
    forall j | 0 <= j < |reached| :: Stopped(job, reached[j]).None?
  }

  lemma {:induction false} FirstErrorNone<M, S, N, D, E>(job: Job<M, S, N, D, E>, reached: seq<Arrival<M, E>>, i: nat)
    requires i <= |reached|
    ensures FirstError(job, reached, i).None? <==> forall j | i <= j < |reached| :: Stopped(job, reached[j]).None?
    decreases |reached| - i
  {
    if i == |reached| {
    } else {
      FirstErrorNone(job, reached, i + 1);
    }
  }

  /** Exactly once, or not at all: with forwarding hooks, any number of builders is saved by
      one batch whose j-th spec comes from builder j, and then every mutation is done and
      carries the ID of its own row. Otherwise the database is as before, no mutation is
      marked done, and when it was a check that failed no batch was issued. */
  lemma AllOrNothing<M, S, N, D, E>(job: Job<M, S, N, D, E>, s: State<M, S, N, D>)
    requires Fits(job, s) && |job.hooks| > 0 && AllForward(job.hooks)
    ensures var (t, r) := SaveAll(job, s);
      var reached := ReachedBy(job, s.slots);
      var batch := Batch(job.create, s.store, SpecsOf(job, reached));
      && (r.Done? <==> AllPass(job, reached) && batch.Ok?)
      && (r.Done? ==>
            && t.store == batch.value.0 && t.batches == s.batches + [(SpecsOf(job, reached), true)]
            && forall j | 0 <= j < |s.slots| :: Complete(job, reached, t, batch.value.1, j))
      && (r.Failed? ==> t.store == s.store && Untouched(s, t))
      && (!AllPass(job, reached) ==> t.batches == s.batches)
  {
    var reached := ReachedBy(job, s.slots);
    HooksForward(job, reached, 0, 0, s);
    FirstErrorNone(job, reached, 0);
  }
}
