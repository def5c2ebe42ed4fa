/** The bulk builder drops the error of defaults, the single builder returns it. When that
    makes a difference, and when it cannot. */
module BulkDefaults {
  import opened Wrappers
  import opened BulkCreate
  import opened BulkTheorems
  import opened BulkSave
  import opened SingleSave

  // Saving one by one as the single builder does: an error of the defaults of a builder is
  // its result, and then neither its hooks nor its insert run.
  function SaveStrictly<M, S, N, D, E>(
    job: Job<M, S, N, D, E>, hooks: seq<seq<Program<M, E>>>, fields: seq<M>, errs: seq<Option<E>>, store: D):
    (seq<N>, D, Answer<E>)
    requires |fields| == |hooks| == |errs|
  {
    if fields == [] then ([], store, Done)
    else
      var n := |fields| - 1;
      var earlier := SaveStrictly(job, hooks[..n], fields[..n], errs[..n], store);
      if earlier.2.Done? && errs[n].Some? then (earlier.0, earlier.1, Failed(errs[n].value))
      else SaveNext(job, hooks[n], fields[n], earlier)
  }

  ghost predicate NoErrors<E>(errs: seq<Option<E>>)
  {
    forall j | 0 <= j < |errs| :: errs[j].None?
  }

  lemma {:induction false} StrictIsEach<M, S, N, D, E>(
    job: Job<M, S, N, D, E>, hooks: seq<seq<Program<M, E>>>, fields: seq<M>, errs: seq<Option<E>>, store: D)
    requires |fields| == |hooks| == |errs|
    ensures var strict := SaveStrictly(job, hooks, fields, errs, store);
      var each := SaveEach(job, hooks, fields, store);
      && (strict.2.Done? <==> each.2.Done? && NoErrors(errs))
      && (strict.2.Done? ==> strict == each)
  {
    if fields == [] {
    } else {
      var n := |fields| - 1;
      StrictIsEach(job, hooks[..n], fields[..n], errs[..n], store);
      assert errs == errs[..n] + [errs[n]];
      var each := SaveEach(job, hooks[..n], fields[..n], store);
      if each.2.Done? && !NoErrors(errs[..n]) {
        assert SaveStrictly(job, hooks[..n], fields[..n], errs[..n], store).2.Failed?;
      }
    }
  }

  /** One by one succeeds exactly when bulk does and no builder's defaults failed; then both
      leave the same rows and the same nodes. */
  lemma {:induction false} DroppedDefaults<M, S, N, D, E>(
    job: Job<M, S, N, D, E>, s: State<M, S, N, D>, errs: seq<Option<E>>)
    requires Fits(job, s) && |job.hooks| == |errs| > 0 && AllForward(job.hooks)
    ensures var (t, bulk) := SaveAll(job, s);
      var (nodes, after, strict) := SaveStrictly(job, job.hooks, FieldsOf(s.slots), errs, s.store);
      && (strict.Done? <==> bulk.Done? && NoErrors(errs))
      && (strict.Done? ==>
            && t.store == after && |nodes| == |t.slots|
            && forall j | 0 <= j < |nodes| :: t.slots[j].node == Some(nodes[j]))
  {
    BulkIsEach(job, s);
    StrictIsEach(job, job.hooks, FieldsOf(s.slots), errs, s.store);
  }

  // Bulk and one by one have the same verdict, though only the latter sees the errors, and
  // when they succeed they leave the same rows and nodes.
  ghost predicate SavesAgree<M, S, N, D, E>(job: Job<M, S, N, D, E>, s: State<M, S, N, D>, errs: seq<Option<E>>)
    requires Fits(job, s) && |job.hooks| == |errs|
  {
    var (t, bulk) := SaveAll(job, s);
    var (nodes, after, strict) := SaveStrictly(job, job.hooks, FieldsOf(s.slots), errs, s.store);
    && (bulk.Done? <==> strict.Done?)
    && (bulk.Done? ==>
          && t.store == after && |nodes| == |t.slots|
          && forall j | 0 <= j < |nodes| :: t.slots[j].node == Some(nodes[j]))
  }

  /** Exactly when dropping the error makes no difference: no builder's defaults failed, or
      the bulk save fails anyway, stopped by a hook, by a check on the fields the hooks pass
      on, or by the insert. */
  lemma DropIsHarmlessExactly<M, S, N, D, E>(job: Job<M, S, N, D, E>, s: State<M, S, N, D>, errs: seq<Option<E>>)
    requires Fits(job, s) && |job.hooks| == |errs| > 0 && AllForward(job.hooks)
    ensures var reached := ReachedBy(job, s.slots);
      SavesAgree(job, s, errs) <==>
      NoErrors(errs) || !AllPass(job, reached) || Batch(job.create, s.store, SpecsOf(job, reached)).Err?
  {
    DroppedDefaults(job, s, errs);
    AllOrNothing(job, s);
  }

  /** If failing defaults always leave something that check refuses, nothing is lost by
      dropping their error: the two saves have the same verdict. */
  lemma HarmlessDrop<M, S, N, D, E>(job: Job<M, S, N, D, E>, s: State<M, S, N, D>, errs: seq<Option<E>>)
    requires Fits(job, s) && |job.hooks| == |errs| > 0 && AllForward(job.hooks)
    requires forall j | 0 <= j < |errs| && errs[j].Some? ::
               Stopped(job, Reach(job.hooks[j], 0, s.slots[j].fields)).Some?
    ensures SavesAgree(job, s, errs)
  {
    DropIsHarmlessExactly(job, s, errs);
    var reached := ReachedBy(job, s.slots);
    if AllPass(job, reached) {
      forall j | 0 <= j < |errs| ensures errs[j].None? {
        assert Stopped(job, reached[j]).None?;
      }
    }
  }
}
