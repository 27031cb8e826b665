/** What racing submissions are answered, and that the answers are true. */
module AcceptOutcomes {
  import opened Bytes
  import opened Outcomes
  import opened Store
  import opened AcceptRace
  import opened RollingBudget

  // ---------------------------------------------------------------- the answers

  /** What each answer says about the table and the queue. */
  ghost predicate AnswerTrue(t: State, sub: Sub)
    requires sub.pc.Done?
  {
    match sub.pc.answer
    case Accepted => Holds(t, sub) && multiset(t.jobs)[sub.id] == 1
    case Existing(id) => SameDigest(t, id, sub) && LeftNothing(t, sub)
    case NonceReused => (exists id :: SameNonce(t, id, sub)) && LeftNothing(t, sub)
    case AgentQuota =>
      |Since(t.rows, sub.arrived - DAY, Some(sub.content.agent))| >= t.agentQuota && LeftNothing(t, sub)
    case GlobalQuota => |Since(t.rows, sub.arrived - DAY, None)| >= t.globalQuota && LeftNothing(t, sub)
  }

  predicate LeftNothing(t: State, sub: Sub) { sub.id !in t.rows && sub.id !in t.jobs }

  lemma SubAnswersTrue(t: State, sub: Sub)
    requires SubTrue(t, sub) && sub.pc.Done? && forall j, k :: 0 <= j < k < |t.jobs| ==> t.jobs[j] != t.jobs[k]
    ensures AnswerTrue(t, sub)
  {
    if sub.pc.answer.Accepted? {
      OnceInside(t.jobs, sub.id);
    }
  }

  /**
   * However submissions race, digests and (agent, nonce) pairs stay unique, and every answer is true:
   * "accepted" means the row is there as asked and was queued once, "existing" names a row with the
   * same digest, "nonce reused" means another declaration of the agent holds the nonce, and a quota
   * refusal means that the quota is full of rows stored since a day before it came; and those answered
   * otherwise than "accepted" have stored and queued nothing.
   */
  lemma AnswersAreTrue(now: int, agentQuota: nat, globalQuota: nat, es: seq<Event>, t: State, i: nat)
    requires Run(Initial(now, agentQuota, globalQuota), es, t) && i < |t.subs| && t.subs[i].pc.Done?
    ensures Unique(t.rows) && t.agentQuota == agentQuota && t.globalQuota == globalQuota
    ensures AnswerTrue(t, t.subs[i])
  {
    RunSound(Initial(now, agentQuota, globalQuota), es, t);
    SubAnswersTrue(t, t.subs[i]);
  }

  lemma {:induction false} OnceInside(xs: seq<RowId>, x: RowId)
    requires x in xs && forall j, k :: 0 <= j < k < |xs| ==> xs[j] != xs[k]
    ensures multiset(xs)[x] == 1
  {
    var n := |xs| - 1;
    assert xs == xs[..n] + [xs[n]];
    if xs[n] == x {
      assert x !in xs[..n];
    } else {
      OnceInside(xs[..n], x);
    }
  }

  /** Exactly one submission stored each row, and no job is for a row that is not there. */
  lemma EveryRowHasOneMaker(now: int, agentQuota: nat, globalQuota: nat, es: seq<Event>, t: State, id: RowId)
    requires Run(Initial(now, agentQuota, globalQuota), es, t) && id in t.rows
    ensures exists i :: 0 <= i < |t.subs| && t.subs[i].id == id && Holds(t, t.subs[i])
                        && (t.subs[i].pc.Enqueueing? || t.subs[i].pc.Lost? || t.subs[i].pc == Done(Accepted))
                        && forall j :: 0 <= j < |t.subs| && t.subs[j].id == id ==> j == i
  {
    RunSound(Initial(now, agentQuota, globalQuota), es, t);
    var i :| 0 <= i < |t.subs| && Made(t.subs[i], id);
    assert SubTrue(t, t.subs[i]);
  }

  // ---------------------------------------------------------------- resubmission

  /** Where a submission of an already stored digest can be. */
  predicate Answers(sub: Sub, id: RowId) { sub.pc.Looking? || sub.pc.Lost? || sub.pc == Done(Existing(id)) }

  ghost predicate AllAnswered(s: State, digest: Bytes, id: RowId, from: nat) {
    && id in s.rows && s.rows[id].content.digest == digest && from <= |s.subs|
    && (forall i :: from <= i < |s.subs| ==> s.subs[i].id != id)
    && (forall i :: from <= i < |s.subs| && s.subs[i].content.digest == digest ==> Answers(s.subs[i], id))
  }

  lemma FindsTheOne(rows: map<RowId, Row>, id: RowId)
    requires Unique(rows) && id in rows
    ensures FindDigest(rows, rows[id].content.digest) == Some(id)
  {
    var found := FindDigest(rows, rows[id].content.digest);
    assert Conflicts(rows[found.value].content, rows[id].content);
  }

  lemma MovesToAnswer(s: State, sub: Sub, id: RowId)
    requires Unique(s.rows) && SameDigest(s, id, sub) && Answers(sub, id)
    ensures Answers(sub.(pc := PcAfter(s, sub)), id)
  {
    FindsTheOne(s.rows, id);
  }

  lemma StepAnswers(s: State, e: Event, digest: Bytes, id: RowId, from: nat)
    requires Unique(s.rows) && Enabled(s, e) && AllAnswered(s, digest, id, from)
    ensures AllAnswered(Next(s, e), digest, id, from)
  {
    var t := Next(s, e);
    StepExtends(s, e);
    forall i | from <= i < |t.subs| && t.subs[i].content.digest == digest ensures Answers(t.subs[i], id) {
      if e == Step(i) {
        MovesToAnswer(s, s.subs[i], id);
      } else if i < |s.subs| {
        assert Answers(s.subs[i], id);
      }
    }
  }

  lemma {:induction false} RunAnswers(s: State, es: seq<Event>, t: State, digest: Bytes, id: RowId, from: nat)
    requires Sound(s) && Run(s, es, t) && AllAnswered(s, digest, id, from)
    ensures AllAnswered(t, digest, id, from)
    decreases |es|
  {
    if es == [] {
    } else {
      StepSound(s, es[0]);
      StepAnswers(s, es[0], digest, id, from);
      RunAnswers(Next(s, es[0]), es[1..], t, digest, id, from);
    }
  }

  /**
   * Submitting again what is stored: in every continuation, a submission of that digest that arrives
   * later is only ever answered with the stored row. It never reaches a quota, stores nothing and
   * queues nothing.
   */
  lemma ResubmissionIsIdempotent(s: State, es: seq<Event>, t: State, id: RowId, i: nat)
    requires Sound(s) && Run(s, es, t) && id in s.rows
    requires |s.subs| <= i < |t.subs| && t.subs[i].content.digest == s.rows[id].content.digest
    ensures Answers(t.subs[i], id) && t.subs[i].id !in t.rows && t.subs[i].id !in t.jobs
  {
    RunSound(s, es, t);
    RunAnswers(s, es, t, s.rows[id].content.digest, id, |s.subs|);
    assert SubTrue(t, t.subs[i]);
  }
}
