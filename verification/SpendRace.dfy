/**
 * Confirmations racing on one ledger: consuming an id and checking the limits is one synchronous
 * step, and so is logging a payment; between them a confirmation awaits the registry.
 */
module SpendRace {
  import opened Outcomes
  import opened RollingBudget
  import opened SpendingLedger

  type ConfirmationId = nat

  /** `n` records at one cost each; a single record is checked as such, a batch as a batch. */
  datatype Request = Request(single: bool, n: nat, fee: nat, gas: nat, expiresAt: int)

  /** A confirmation that passed its check, and how many records it still waits for. */
  datatype Confirm = Confirm(id: ConfirmationId, left: nat, fee: nat, gas: nat)

  datatype State = State(
    now: int, limits: Limits, logs: seq<Spending>,
    pending: map<ConfirmationId, Request>, prepared: set<ConfirmationId>, confirms: seq<Confirm>)

  function Initial(now: int, limits: Limits): State { State(now, limits, [], map[], {}, []) }

  datatype Event =
    | Wait(millis: nat)
    | Prepare(id: ConfirmationId, request: Request)
    | Take(id: ConfirmationId)                  // confirm: consume the id, then check
    | Collect(id: ConfirmationId)               // the id expires
    | Settle(i: nat, recordId: Option<string>)  // the registry answers for one record
    | Break(i: nat)                             // the rest of a confirmation is given up

  predicate Enabled(s: State, e: Event) {
    match e
    case Wait(_) => true
    case Prepare(id, request) => id !in s.prepared && (request.single ==> request.n == 1)
    case Take(id) => id in s.pending
    case Collect(id) => id in s.pending && s.now > s.pending[id].expiresAt
    case Settle(i, _) => i < |s.confirms| && s.confirms[i].left > 0
    case Break(i) => i < |s.confirms|
  }

  ghost predicate Passes(s: State, r: Request) {
    && s.now <= r.expiresAt
    && if r.single then Permits(s.limits, s.logs, s.now, r.fee, r.gas)
       else PermitsBatch(s.limits, s.logs, s.now, r.n, r.fee, r.gas)
  }

  function Logged(s: State, c: Confirm, recordId: string): Spending { Spending(recordId, "", c.fee, c.gas, s.now) }

  ghost function Next(s: State, e: Event): State
    requires Enabled(s, e)
  {
    match e
    case Wait(millis) => s.(now := s.now + millis)
    case Prepare(id, request) => s.(pending := s.pending[id := request], prepared := s.prepared + {id})
    case Collect(id) => s.(pending := s.pending - {id})
    case Take(id) =>
      var r := s.pending[id];
      var taken := s.(pending := s.pending - {id});
      if Passes(s, r) then taken.(confirms := s.confirms + [Confirm(id, r.n, r.fee, r.gas)]) else taken
    case Settle(i, recordId) =>
      var c := s.confirms[i];
      var moved := s.(confirms := s.confirms[i := c.(left := c.left - 1)]);
      if recordId.Some? then moved.(logs := s.logs + [Logged(s, c, recordId.value)]) else moved
    case Break(i) => s.(confirms := s.confirms[i := s.confirms[i].(left := 0)])
  }

  ghost predicate Run(s: State, es: seq<Event>, t: State)
    decreases |es|
  {
    if es == [] then s == t else Enabled(s, es[0]) && Run(Next(s, es[0]), es[1..], t)
  }

  // ---------------------------------------------------------------- consumed once

  ghost predicate Once(s: State) {
    && s.pending.Keys <= s.prepared
    && (forall i :: 0 <= i < |s.confirms| ==> s.confirms[i].id in s.prepared && s.confirms[i].id !in s.pending)
    && (forall i, j :: 0 <= i < j < |s.confirms| ==> s.confirms[i].id != s.confirms[j].id)
  }

  lemma StepOnce(s: State, e: Event)
    requires Once(s) && Enabled(s, e)
    ensures Once(Next(s, e))
  {
  }

  /** However confirmations race, no id is paid for twice. */
  lemma {:induction false} ConfirmedOnce(s: State, es: seq<Event>, t: State, i: nat, j: nat)
    requires Once(s) && Run(s, es, t) && i < j < |t.confirms|
    ensures t.confirms[i].id != t.confirms[j].id
    decreases |es|
  {
    if es == [] {
    } else {
      StepOnce(s, es[0]);
      ConfirmedOnce(Next(s, es[0]), es[1..], t, i, j);
    }
  }

  // ---------------------------------------------------------------- as budgets

  function Held(c: Confirm, m: Measure): nat { c.left * UnitOf(c.fee, c.gas, m) }

  function HeldBy(cs: seq<Confirm>, m: Measure): seq<nat> {
    seq(|cs|, i requires 0 <= i < |cs| => Held(cs[i], m))
  }

  function View(s: State, m: Measure): Budget { Budget(s.now, LogOf(s.logs, m), HeldBy(s.confirms, m)) }

  lemma PassingIsAllowed(s: State, r: Request, m: Measure)
    requires Passes(s, r) && (r.single ==> r.n == 1)
    ensures SpentFrom(LogOf(s.logs, m), s.now - DAY) + r.n * UnitOf(r.fee, r.gas, m) <= Cap(s.limits, m)
  {
    PermitsMeans(s.limits, s.logs, s.now, r.n, r.fee, r.gas);
  }

  /** In every state of the run at most `k` confirmations await the registry, none for more than `most`. */
  ghost predicate Calm(s: State, es: seq<Event>, m: Measure, k: nat, most: nat)
    decreases |es|
  {
    && Crowded(View(s, m), k, most)
    && (es != [] ==> Enabled(s, es[0]) && Calm(Next(s, es[0]), es[1..], m, k, most))
  }

  /** Confirmations of a single record are single. */
  predicate WellFormed(s: State) { forall id :: id in s.pending && s.pending[id].single ==> s.pending[id].n == 1 }

  /** A confirmation that passes enters the budget holding nothing, and is then admitted for its cost. */
  function Entering(s: State, m: Measure): Budget { var b := View(s, m); b.(held := b.held + [0]) }

  lemma TakeIsMove(s: State, id: ConfirmationId, m: Measure, weight: nat)
    requires Enabled(s, Take(id)) && Passes(s, s.pending[id]) && WellFormed(s)
    requires weight == s.pending[id].n * UnitOf(s.pending[id].fee, s.pending[id].gas, m)
    ensures var move := Admit(|s.confirms|, weight, s.now);
      && Allowed(Entering(s, m), move, Cap(s.limits, m))
      && View(Next(s, Take(id)), m) == After(Entering(s, m), move, Cap(s.limits, m))
  {
    PassingIsAllowed(s, s.pending[id], m);
    assert (HeldBy(s.confirms, m) + [0])[|s.confirms| := weight] == HeldBy(Next(s, Take(id)).confirms, m);
  }

  lemma TakeWithin(s: State, id: ConfirmationId, m: Measure, k: nat, most: nat, limit: int)
    requires Enabled(s, Take(id)) && Passes(s, s.pending[id]) && WellFormed(s)
    requires k >= 1 && limit == Cap(s.limits, m) + (k - 1) * most
    requires Within(View(s, m), limit) && Crowded(View(Next(s, Take(id)), m), k, most)
    ensures Within(View(Next(s, Take(id)), m), limit)
  {
    var r := s.pending[id];
    var weight := r.n * UnitOf(r.fee, r.gas, m);
    TakeIsMove(s, id, m, weight);
    EnterWithin(View(s, m), limit);
    MoveWithin(Entering(s, m), Admit(|s.confirms|, weight, s.now), Cap(s.limits, m), k, most);
  }

  lemma OneLess(left: nat, cost: nat)
    requires left > 0
    ensures (left - 1) * cost == left * cost - cost && cost <= left * cost
  {
  }

  lemma HeldUpdate(cs: seq<Confirm>, i: nat, c: Confirm, m: Measure)
    requires i < |cs|
    ensures HeldBy(cs[i := c], m) == HeldBy(cs, m)[i := Held(c, m)]
  {
  }

  lemma LogAppend(logs: seq<Spending>, r: Spending, m: Measure)
    ensures LogOf(logs + [r], m) == LogOf(logs, m) + [Entry(r.timestamp, UnitOf(r.amount, r.gas, m))]
  {
    SinceAppend(logs, r, 0);
  }

  /** The move a settled record makes. */
  lemma SettleIsMove(s: State, i: nat, recordId: Option<string>, m: Measure, weight: nat)
    requires Enabled(s, Settle(i, recordId)) && weight == UnitOf(s.confirms[i].fee, s.confirms[i].gas, m)
    ensures Allowed(View(s, m), Charge(i, weight), Cap(s.limits, m)) && Allowed(View(s, m), Drop(i, weight), Cap(s.limits, m))
    ensures View(Next(s, Settle(i, recordId)), m)
            == After(View(s, m), if recordId.Some? then Charge(i, weight) else Drop(i, weight), Cap(s.limits, m))
  {
    var c, t := s.confirms[i], Next(s, Settle(i, recordId));
    OneLess(c.left, weight);
    HeldUpdate(s.confirms, i, c.(left := c.left - 1), m);
    if recordId.Some? {
      LogAppend(s.logs, Logged(s, c, recordId.value), m);
    }
  }

  lemma BreakIsMove(s: State, i: nat, m: Measure)
    requires Enabled(s, Break(i))
    ensures Allowed(View(s, m), Drop(i, Held(s.confirms[i], m)), Cap(s.limits, m))
    ensures View(Next(s, Break(i)), m) == After(View(s, m), Drop(i, Held(s.confirms[i], m)), Cap(s.limits, m))
  {
    var t := Next(s, Break(i));
    assert HeldBy(t.confirms, m) == HeldBy(s.confirms, m)[i := 0];
  }

  lemma StepWithin(s: State, e: Event, m: Measure, k: nat, most: nat)
    requires Enabled(s, e) && WellFormed(s) && k >= 1
    requires Within(View(s, m), Cap(s.limits, m) + (k - 1) * most) && Crowded(View(Next(s, e), m), k, most)
    ensures Within(View(Next(s, e), m), Cap(s.limits, m) + (k - 1) * most)
  {
    var cap := Cap(s.limits, m);
    match e {
      case Wait(millis) => MoveWithin(View(s, m), Pass(millis), cap, k, most);
      case Prepare(_, _) =>
      case Collect(_) =>
      case Take(id) =>
        if Passes(s, s.pending[id]) {
          TakeWithin(s, id, m, k, most, cap + (k - 1) * most);
        }
      case Settle(i, recordId) =>
        var weight := UnitOf(s.confirms[i].fee, s.confirms[i].gas, m);
        SettleIsMove(s, i, recordId, m, weight);
        MoveWithin(View(s, m), if recordId.Some? then Charge(i, weight) else Drop(i, weight), cap, k, most);
      case Break(i) =>
        BreakIsMove(s, i, m);
        MoveWithin(View(s, m), Drop(i, Held(s.confirms[i], m)), cap, k, most);
    }
  }

  lemma {:induction false} RunWithin(s: State, es: seq<Event>, t: State, m: Measure, k: nat, most: nat)
    requires Run(s, es, t) && WellFormed(s) && k >= 1 && Calm(s, es, m, k, most)
    requires Within(View(s, m), Cap(s.limits, m) + (k - 1) * most)
    ensures t.limits == s.limits && Within(View(t, m), Cap(s.limits, m) + (k - 1) * most)
    decreases |es|
  {
    if es == [] {
    } else {
      StepWithin(s, es[0], m, k, most);
      RunWithin(Next(s, es[0]), es[1..], t, m, k, most);
    }
  }

  /**
   * The daily caps under racing confirmations. With at most `k` of them between check and log, none
   * checked for more than `most`, what was logged in any 24 hours exceeds the cap by at most
   * (k - 1) * most; and so does what was logged in the last 24 hours together with all that is
   * still awaited. This holds for the money spent and for the number of records.
   */
  lemma DailyCapHolds(now: int, limits: Limits, es: seq<Event>, t: State, m: Measure, k: nat, most: nat, from: int,
                      until: int)
    requires Run(Initial(now, limits), es, t) && k >= 1 && Calm(Initial(now, limits), es, m, k, most)
    requires until <= from + DAY
    ensures SpentIn(LogOf(t.logs, m), from, until) <= Cap(limits, m) + (k - 1) * most
    ensures SpentFrom(LogOf(t.logs, m), t.now - DAY) + Sum(HeldBy(t.confirms, m)) <= Cap(limits, m) + (k - 1) * most
  {
    assert 0 <= (k - 1) * most;
    RunWithin(Initial(now, limits), es, t, m, k, most);
  }

  /** One confirmation at a time never exceeds a cap, whatever it costs. */
  lemma SerialCapHolds(now: int, limits: Limits, es: seq<Event>, t: State, m: Measure, most: nat, from: int, until: int)
    requires Run(Initial(now, limits), es, t) && Calm(Initial(now, limits), es, m, 1, most)
    requires until <= from + DAY
    ensures SpentIn(LogOf(t.logs, m), from, until) <= Cap(limits, m)
  {
    DailyCapHolds(now, limits, es, t, m, 1, most, from, until);
  }
}
