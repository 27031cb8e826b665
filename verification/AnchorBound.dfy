/** How often a declaration is anchored, in every run. */
module AnchorBound {
  import opened Store
  import opened AnchorProtocol
  import opened AnchorSafety
  import opened AnchorTally
  import opened AnchorOnce

  lemma {:induction false} RunCounted(s: State, es: seq<Event>, t: State)
    requires Sound(s) && AllCounted(s) && Run(s, es, t)
    ensures Sound(t) && AllCounted(t)
    decreases |es|
  {
    if es == [] {
    } else {
      StepSound(s, es[0]);
      StepCounted(s, es[0]);
      RunCounted(Next(s, es[0]), es[1..], t);
    }
  }

  /**
   * In every run, with any workers, crashes, expired leases and stale writes: the transactions that
   * anchor one declaration number at most one, plus the transactions whose hash was not stored, plus
   * the calls whose lookup of the recorded transaction threw, plus the claims made while another
   * call on the row was still running. A receipt that times out costs nothing by itself.
   */
  lemma AnchorsAreBounded(now: int, maxAttempts: int, es: seq<Event>, t: State, id: RowId)
    requires Run(Initial(now, maxAttempts), es, t)
    ensures Proofs(t.chain, id) <= 1 + Tally(Incidents, t.workers, id)
  {
    InitialSound(now, maxAttempts);
    RunCounted(Initial(now, maxAttempts), es, t);
    if id in t.rows {
      assert Counted(t, id);
    } else {
      forall k | 0 <= k < |t.chain| ensures t.chain[k].id != id {
        assert TxTrue(t, t.chain[k]);
      }
      ProofsNone(t.chain, id);
    }
  }
}
