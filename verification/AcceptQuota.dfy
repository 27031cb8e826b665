/** The rolling quotas of the declaration service under racing submissions. */
module AcceptQuota {
  import opened Bytes
  import opened Outcomes
  import opened Store
  import opened AcceptRace
  import opened RollingBudget

  /** A quota is that of one agent, or the global one. */
  function Quota(s: State, agent: Option<Bytes>): nat { if agent.Some? then s.agentQuota else s.globalQuota }

  /** The submission has passed this quota and has neither stored its row nor given up. */
  predicate Past(sub: Sub, agent: Option<Bytes>) {
    && OfAgent(sub.content, agent)
    && (sub.pc.Inserting? || (agent.Some? && sub.pc.CountingAll?))
  }

  function Holding(sub: Sub, agent: Option<Bytes>): nat { if Past(sub, agent) then 1 else 0 }

  function EntryOf(row: Row, agent: Option<Bytes>): Entry {
    Entry(row.content.createdAt, if OfAgent(row.content, agent) then 1 else 0)
  }

  function LogOf(rows: map<RowId, Row>, order: seq<RowId>, agent: Option<Bytes>): seq<Entry>
    requires forall id :: id in order ==> id in rows
  {
    seq(|order|, k requires 0 <= k < |order| => EntryOf(rows[order[k]], agent))
  }

  predicate Listed(s: State) { forall id :: id in s.order ==> id in s.rows }

  function HeldBy(subs: seq<Sub>, agent: Option<Bytes>): seq<nat> {
    seq(|subs|, i requires 0 <= i < |subs| => Holding(subs[i], agent))
  }

  /** The table and the submissions in flight, seen as one budget. */
  function View(s: State, agent: Option<Bytes>): Budget
    requires Listed(s)
  {
    Budget(s.now, LogOf(s.rows, s.order, agent), HeldBy(s.subs, agent))
  }

  // ---------------------------------------------------------------- counting rows is adding weights

  ghost predicate Lists(order: seq<RowId>, rows: map<RowId, Row>) {
    && (forall id :: id in rows <==> id in order)
    && (forall j, k :: 0 <= j < k < |order| ==> order[j] != order[k])
  }

  lemma CountOneMore(rows: map<RowId, Row>, id: RowId, lo: int, hi: int, agent: Option<Bytes>)
    requires id in rows
    ensures |CreatedIn(rows, lo, hi, agent)|
            == |CreatedIn(rows - {id}, lo, hi, agent)| + if id in CreatedIn(rows, lo, hi, agent) then 1 else 0
  {
    var all, fewer := CreatedIn(rows, lo, hi, agent), CreatedIn(rows - {id}, lo, hi, agent);
    assert all == if id in all then fewer + {id} else fewer;
  }

  lemma LogOneMore(rows: map<RowId, Row>, order: seq<RowId>, agent: Option<Bytes>)
    requires Lists(order, rows) && order != []
    ensures Lists(order[..|order| - 1], rows - {order[|order| - 1]})
    ensures LogOf(rows, order, agent)
            == LogOf(rows - {order[|order| - 1]}, order[..|order| - 1], agent) + [EntryOf(rows[order[|order| - 1]], agent)]
  {
    ShorterLists(order, rows);
  }

  lemma {:induction false} CountIsWeight(rows: map<RowId, Row>, order: seq<RowId>, lo: int, hi: int,
                                         agent: Option<Bytes>)
    requires Lists(order, rows)
    ensures |CreatedIn(rows, lo, hi, agent)| == SpentIn(LogOf(rows, order, agent), lo, hi)
    decreases |order|
  {
    if order == [] {
      assert CreatedIn(rows, lo, hi, agent) == {};
    } else {
      var n := |order| - 1;
      LogOneMore(rows, order, agent);
      CountIsWeight(rows - {order[n]}, order[..n], lo, hi, agent);
      CountOneMore(rows, order[n], lo, hi, agent);
      SpentInAppend(LogOf(rows - {order[n]}, order[..n], agent), EntryOf(rows[order[n]], agent), lo, hi);
    }
  }

  lemma ShorterLists(order: seq<RowId>, rows: map<RowId, Row>)
    requires Lists(order, rows) && order != []
    ensures Lists(order[..|order| - 1], rows - {order[|order| - 1]})
  {
    var n := |order| - 1;
    forall id ensures id in rows - {order[n]} <==> id in order[..n] {
      assert order == order[..n] + [order[n]];
    }
  }

  lemma {:induction false} NothingLater(log: seq<Entry>, lo: int, now: int)
    requires forall k :: 0 <= k < |log| ==> log[k].time <= now
    ensures SpentFrom(log, lo) == SpentIn(log, lo, now)
  {
    if log == [] {
    } else {
      NothingLater(log[..|log| - 1], lo, now);
    }
  }

  /** What `countSince` counts is what the budget has been charged since then. */
  lemma CountedIsSpent(s: State, since: int, agent: Option<Bytes>)
    requires TableTrue(s)
    ensures |Since(s.rows, since, agent)| == SpentFrom(LogOf(s.rows, s.order, agent), since)
  {
    CountIsWeight(s.rows, s.order, since, s.now, agent);
    NothingLater(LogOf(s.rows, s.order, agent), since, s.now);
    assert Since(s.rows, since, agent) == CreatedIn(s.rows, since, s.now, agent);
  }

  // ---------------------------------------------------------------- each step is a move on the budget

  /** The move a step makes. */
  ghost function MoveOf(s: State, e: Event, agent: Option<Bytes>): Move
    requires Enabled(s, e)
  {
    match e
    case Pass(millis) => Move.Pass(millis)
    case Arrive(_, _) => Open
    case Break(i) => Drop(i, Holding(s.subs[i], agent))
    case Anchor(_, _) => Move.Pass(0)
    case Step(i) =>
      var sub, pc := s.subs[i], PcAfter(s, s.subs[i]);
      if Holding(sub, agent) == 0 && Holding(sub.(pc := pc), agent) == 1 then Admit(i, 1, sub.arrived)
      else if Inserts(s, e) then Charge(i, Holding(sub, agent))
      else Drop(i, Holding(sub, agent) - Holding(sub.(pc := pc), agent))
  }

  /** A submission passes a quota only on a count below it. */
  lemma PassingCounts(s: State, sub: Sub, agent: Option<Bytes>)
    requires Holding(sub, agent) == 0 && Holding(sub.(pc := PcAfter(s, sub)), agent) == 1
    ensures |Since(s.rows, sub.arrived - DAY, agent)| < Quota(s, agent)
  {
    if agent.Some? {
      assert sub.pc.CountingAgent? && agent == Some(sub.content.agent);
    } else {
      assert sub.pc.CountingAll?;
    }
  }

  /** What the two counts guarantee when they let a submission pass. */
  lemma PassingMeansRoom(s: State, sub: Sub, agent: Option<Bytes>)
    requires TableTrue(s) && Holding(sub, agent) == 0 && Holding(sub.(pc := PcAfter(s, sub)), agent) == 1
    ensures SpentFrom(LogOf(s.rows, s.order, agent), sub.arrived - DAY) + 1 <= Quota(s, agent)
  {
    PassingCounts(s, sub, agent);
    CountedIsSpent(s, sub.arrived - DAY, agent);
  }

  lemma StepMoveAllowed(s: State, i: nat, agent: Option<Bytes>)
    requires Listed(s) && Enabled(s, Step(i)) && s.subs[i].arrived <= s.now
    requires Holding(s.subs[i], agent) == 0 && Holding(s.subs[i].(pc := PcAfter(s, s.subs[i])), agent) == 1
             ==> SpentFrom(LogOf(s.rows, s.order, agent), s.subs[i].arrived - DAY) + 1 <= Quota(s, agent)
    ensures Allowed(View(s, agent), MoveOf(s, Step(i), agent), Quota(s, agent))
  {
    assert HeldBy(s.subs, agent)[i] == Holding(s.subs[i], agent);
  }

  lemma StepIsAllowed(s: State, e: Event, agent: Option<Bytes>)
    requires TableTrue(s) && Enabled(s, e) && (e.Step? ==> s.subs[e.i].arrived <= s.now)
    ensures Allowed(View(s, agent), MoveOf(s, e, agent), Quota(s, agent))
  {
    if e.Step? && Holding(s.subs[e.i], agent) == 0 && Holding(s.subs[e.i].(pc := PcAfter(s, s.subs[e.i])), agent) == 1 {
      PassingMeansRoom(s, s.subs[e.i], agent);
    }
    if e.Step? {
      StepMoveAllowed(s, e.i, agent);
    }
  }

  /** Rows other than a new one keep their entries. */
  lemma SameLog(s: State, t: State, agent: Option<Bytes>)
    requires Listed(s) && Listed(t) && Extends(s, t) && s.order <= t.order
    ensures LogOf(t.rows, t.order, agent)[..|s.order|] == LogOf(s.rows, s.order, agent)
  {
    forall k | 0 <= k < |s.order| ensures LogOf(t.rows, t.order, agent)[k] == LogOf(s.rows, s.order, agent)[k] {
      assert s.order[k] in s.order && t.order[k] == s.order[k];
    }
  }

  lemma StepLog(s: State, e: Event, agent: Option<Bytes>)
    requires Listed(s) && Enabled(s, e) && Listed(Next(s, e))
    ensures var log := LogOf(s.rows, s.order, agent);
      LogOf(Next(s, e).rows, Next(s, e).order, agent)
      == if Inserts(s, e)
         then log + [Entry(s.now, Holding(s.subs[e.i], agent))] else log
  {
    var t := Next(s, e);
    StepExtends(s, e);
    SameLog(s, t, agent);
    if Inserts(s, e) {
      assert t.order == s.order + [s.subs[e.i].id];
      var log := LogOf(t.rows, t.order, agent);
      assert log == log[..|s.order|] + [log[|s.order|]];
    } else {
      assert t.order == s.order;
    }
  }

  lemma HeldUpdate(subs: seq<Sub>, i: nat, sub: Sub, agent: Option<Bytes>)
    requires i < |subs|
    ensures HeldBy(subs[i := sub], agent) == HeldBy(subs, agent)[i := Holding(sub, agent)]
  {
  }

  lemma StepHeld(s: State, e: Event, agent: Option<Bytes>)
    requires Enabled(s, e)
    ensures var held := HeldBy(s.subs, agent);
      HeldBy(Next(s, e).subs, agent)
      == match e
         case Arrive(_, _) => held + [0]
         case Break(i) => held[i := 0]
         case Step(i) => held[i := Holding(s.subs[i].(pc := PcAfter(s, s.subs[i])), agent)]
         case _ => held
  {
    if e.Break? {
      HeldUpdate(s.subs, e.i, s.subs[e.i].(pc := Lost), agent);
    } else if e.Step? {
      HeldUpdate(s.subs, e.i, s.subs[e.i].(pc := PcAfter(s, s.subs[e.i])), agent);
    }
  }

  // ---------------------------------------------------------------- the guarantee

  /** In every state of the run, at most `k` submissions are between this quota and their row. */
  ghost predicate Calm(s: State, es: seq<Event>, agent: Option<Bytes>, k: nat)
    decreases |es|
  {
    && Holders(HeldBy(s.subs, agent)) <= k
    && (es != [] ==> Enabled(s, es[0]) && Calm(Next(s, es[0]), es[1..], agent, k))
  }

  lemma CalmIsCrowded(s: State, agent: Option<Bytes>, k: nat)
    requires TableTrue(s) && Holders(HeldBy(s.subs, agent)) <= k
    ensures Crowded(View(s, agent), k, 1)
  {
  }

  lemma ViewMoves(s: State, e: Event, agent: Option<Bytes>)
    requires Listed(s) && Enabled(s, e) && Listed(Next(s, e))
    requires Allowed(View(s, agent), MoveOf(s, e, agent), Quota(s, agent))
    ensures View(Next(s, e), agent) == After(View(s, agent), MoveOf(s, e, agent), Quota(s, agent))
  {
    StepLog(s, e, agent);
    StepHeld(s, e, agent);
  }

  lemma StepIsMove(s: State, e: Event, agent: Option<Bytes>)
    requires Sound(s) && Enabled(s, e)
    ensures Sound(Next(s, e)) && Allowed(View(s, agent), MoveOf(s, e, agent), Quota(s, agent))
    ensures View(Next(s, e), agent) == After(View(s, agent), MoveOf(s, e, agent), Quota(s, agent))
  {
    StepSound(s, e);
    if e.Step? {
      assert SubTrue(s, s.subs[e.i]);
    }
    StepIsAllowed(s, e, agent);
    ViewMoves(s, e, agent);
  }

  lemma StepWithin(s: State, e: Event, agent: Option<Bytes>, k: nat)
    requires Sound(s) && Enabled(s, e) && k >= 1
    requires Within(View(s, agent), Quota(s, agent) + (k - 1) * 1)
    requires Holders(HeldBy(Next(s, e).subs, agent)) <= k
    ensures Sound(Next(s, e)) && Within(View(Next(s, e), agent), Quota(s, agent) + (k - 1) * 1)
  {
    StepIsMove(s, e, agent);
    CalmIsCrowded(Next(s, e), agent, k);
    MoveWithin(View(s, agent), MoveOf(s, e, agent), Quota(s, agent), k, 1);
  }

  lemma {:induction false} RunWithin(s: State, es: seq<Event>, t: State, agent: Option<Bytes>, k: nat)
    requires Sound(s) && Run(s, es, t) && k >= 1 && Calm(s, es, agent, k)
    requires Within(View(s, agent), Quota(s, agent) + (k - 1) * 1)
    ensures Sound(t) && Quota(t, agent) == Quota(s, agent)
    ensures Within(View(t, agent), Quota(s, agent) + (k - 1) * 1)
    decreases |es|
  {
    if es == [] {
    } else {
      StepWithin(s, es[0], agent, k);
      RunWithin(Next(s, es[0]), es[1..], t, agent, k);
    }
  }

  /**
   * The rolling quota, exactly as far as it goes: when at most `k` submissions are ever between the
   * count and the insert, no 24 hours hold more than the quota plus `k - 1` rows, of the agent or of
   * all agents together.
   */
  lemma QuotaHolds(now: int, agentQuota: nat, globalQuota: nat, es: seq<Event>, t: State, agent: Option<Bytes>,
                   k: nat, from: int, until: int)
    requires Run(Initial(now, agentQuota, globalQuota), es, t)
    requires k >= 1 && Calm(Initial(now, agentQuota, globalQuota), es, agent, k)
    requires until <= from + DAY
    ensures |CreatedIn(t.rows, from, until, agent)|
            <= (if agent.Some? then agentQuota else globalQuota) + k - 1
  {
    var s := Initial(now, agentQuota, globalQuota);
    RunWithin(s, es, t, agent, k);
    CountIsWeight(t.rows, t.order, from, until, agent);
  }

  /** Submissions one after the other never exceed a quota. */
  lemma SerialQuotaHolds(now: int, agentQuota: nat, globalQuota: nat, es: seq<Event>, t: State, agent: Option<Bytes>,
                         from: int, until: int)
    requires Run(Initial(now, agentQuota, globalQuota), es, t)
    requires Calm(Initial(now, agentQuota, globalQuota), es, agent, 1)
    requires until <= from + DAY
    ensures |CreatedIn(t.rows, from, until, agent)| <= if agent.Some? then agentQuota else globalQuota
  {
    QuotaHolds(now, agentQuota, globalQuota, es, t, agent, 1, from, until);
  }
}
