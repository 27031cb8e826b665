/** The bound on the daily caps is reached: confirmations that race all see the same log. */
module SpendRacers {
  import opened Outcomes
  import opened RollingBudget
  import opened SpendingLedger
  import opened SpendRace

  /** A run in which at most `k` confirmations ever await the registry, none for more than `most`. */
  ghost predicate CalmRun(s: State, es: seq<Event>, t: State, m: Measure, k: nat, most: nat) {
    Run(s, es, t) && Calm(s, es, m, k, most)
  }

  lemma {:induction false} CalmStep(s: State, es: seq<Event>, t: State, e: Event, u: State, m: Measure, k: nat,
                                    most: nat)
    requires CalmRun(s, es, t, m, k, most) && Enabled(t, e) && Next(t, e) == u && Crowded(View(u, m), k, most)
    ensures CalmRun(s, es + [e], u, m, k, most)
    decreases |es|
  {
    if es == [] {
      assert [e][1..] == [] && es + [e] == [e];
    } else {
      CalmStep(Next(s, es[0]), es[1..], t, e, u, m, k, most);
      assert (es + [e])[1..] == es[1..] + [e];
    }
  }

  // ---------------------------------------------------------------- everything awaited is paid

  lemma HoldingLessIsCalm(held: seq<nat>, i: nat, less: nat, after: seq<nat>, k: nat, most: nat)
    requires i < |held| && less <= held[i] && held[i] > 0 && after == held[i := less]
    requires Holders(held) <= k && forall j :: 0 <= j < |held| ==> held[j] <= most
    ensures Holders(after) <= k && forall j :: 0 <= j < |after| ==> after[j] <= most
  {
    HoldersUpdate(held, i, less);
  }

  lemma SomeCost(left: nat, cost: nat)
    requires left * cost > 0
    ensures left > 0 && cost > 0
  {
  }

  /** What one answer of the registry moves from awaited to logged. */
  lemma SettleOne(t: State, i: nat, m: Measure, w: nat, u: State)
    requires i < |t.confirms| && t.confirms[i].left > 0 && w == UnitOf(t.confirms[i].fee, t.confirms[i].gas, m)
    requires u == Next(t, Settle(i, Some("")))
    ensures u.now == t.now && w <= HeldBy(t.confirms, m)[i]
    ensures HeldBy(u.confirms, m) == HeldBy(t.confirms, m)[i := HeldBy(t.confirms, m)[i] - w]
    ensures Sum(HeldBy(u.confirms, m)) == Sum(HeldBy(t.confirms, m)) - w
    ensures SpentIn(LogOf(u.logs, m), t.now, t.now) == SpentIn(LogOf(t.logs, m), t.now, t.now) + w
  {
    SettleIsMove(t, i, Some(""), m, w);
    SumUpdate(HeldBy(t.confirms, m), i, HeldBy(t.confirms, m)[i] - w);
    SpentInAppend(LogOf(t.logs, m), Entry(t.now, w), t.now, t.now);
  }

  lemma {:induction false} SettleAll(s: State, es: seq<Event>, t: State, m: Measure, k: nat, most: nat)
    returns (fs: seq<Event>, u: State)
    requires CalmRun(s, es, t, m, k, most) && Crowded(View(t, m), k, most)
    ensures CalmRun(s, fs, u, m, k, most)
    ensures SpentIn(LogOf(u.logs, m), t.now, t.now)
            == SpentIn(LogOf(t.logs, m), t.now, t.now) + Sum(HeldBy(t.confirms, m))
    decreases Sum(HeldBy(t.confirms, m))
  {
    if Sum(HeldBy(t.confirms, m)) == 0 {
      fs, u := es, t;
    } else {
      var i := SomeoneHolds(HeldBy(t.confirms, m));
      var e := Settle(i, Some(""));
      var held, w := HeldBy(t.confirms, m), UnitOf(t.confirms[i].fee, t.confirms[i].gas, m);
      SomeCost(t.confirms[i].left, w);
      SettleOne(t, i, m, w, Next(t, e));
      HoldingLessIsCalm(held, i, held[i] - w, HeldBy(Next(t, e).confirms, m), k, most);
      CalmStep(s, es, t, e, Next(t, e), m, k, most);
      fs, u := SettleAll(s, es + [e], Next(t, e), m, k, most);
    }
  }

  // ---------------------------------------------------------------- the race

  function Paid(now: int, filler: nat, b: nat): seq<Spending> { seq(b, _ => Spending("", "", filler, 0, now)) }

  function Ids(n: nat): (ids: set<ConfirmationId>)
    ensures forall id: ConfirmationId :: id in ids <==> id < n
  {
    if n == 0 then {} else Ids(n - 1) + {n - 1}
  }

  /** `b` records are paid for, one by one; then `j` confirmations of `n` records each await the registry. */
  function Racing(now: int, limits: Limits, filler: nat, b: nat, n: nat, fee: nat, j: nat): State {
    State(now, limits, Paid(now, filler, b), map[], Ids(b + j),
          seq(b + j, i requires 0 <= i < b + j => if i < b then Confirm(i, 0, filler, 0) else Confirm(i, n, fee, 0)))
  }

  lemma {:induction false} EvenLog(log: seq<Entry>, now: int, w: nat)
    requires forall i :: 0 <= i < |log| ==> log[i] == Entry(now, w)
    ensures SpentFrom(log, now - DAY) == |log| * w && SpentIn(log, now, now) == |log| * w
  {
    if log != [] {
      EvenLog(log[..|log| - 1], now, w);
      assert |log| * w == (|log| - 1) * w + w;
    }
  }

  lemma PaidAmounts(now: int, filler: nat, b: nat, m: Measure)
    ensures SpentFrom(LogOf(Paid(now, filler, b), m), now - DAY) == b * UnitOf(filler, 0, m)
    ensures SpentIn(LogOf(Paid(now, filler, b), m), now, now) == b * UnitOf(filler, 0, m)
  {
    EvenLog(LogOf(Paid(now, filler, b), m), now, UnitOf(filler, 0, m));
  }

  lemma RacingIsCrowded(t: State, now: int, limits: Limits, filler: nat, b: nat, n: nat, fee: nat, j: nat, m: Measure,
                        k: nat, most: nat)
    requires t.confirms == Racing(now, limits, filler, b, n, fee, j).confirms
    requires j <= k && n * UnitOf(fee, 0, m) <= most
    ensures Crowded(View(t, m), k, most)
  {
    HoldersAfter(HeldBy(t.confirms, m), b);
  }

  lemma {:induction false} EvenSum(held: seq<nat>, b: nat, w: nat)
    requires b <= |held|
    requires forall i :: 0 <= i < |held| ==> held[i] == if i < b then 0 else w
    ensures Sum(held) == (|held| - b) * w
  {
    if held == [] {
    } else if |held| > b {
      EvenSum(held[..|held| - 1], b, w);
      assert (|held| - b) * w == (|held| - 1 - b) * w + w;
    } else {
      EvenSum(held[..|held| - 1], b - 1, w);
    }
  }

  lemma RacersAwait(now: int, limits: Limits, filler: nat, b: nat, n: nat, fee: nat, j: nat, m: Measure)
    ensures Sum(HeldBy(Racing(now, limits, filler, b, n, fee, j).confirms, m)) == j * (n * UnitOf(fee, 0, m))
  {
    EvenSum(HeldBy(Racing(now, limits, filler, b, n, fee, j).confirms, m), b, n * UnitOf(fee, 0, m));
  }

  /** A batch of `n` records at this fee passes its check on top of `b` records already paid for. */
  predicate HasRoom(limits: Limits, filler: nat, b: nat, n: nat, fee: nat) {
    && fee <= limits.maxFee && 0 <= limits.maxGas
    && b + n <= limits.maxRecordsPerDay && b * filler + n * fee <= limits.maxSpendPerDay
  }

  lemma BatchPasses(t: State, filler: nat, b: nat, n: nat, fee: nat)
    requires t.logs == Paid(t.now, filler, b) && HasRoom(t.limits, filler, b, n, fee)
    ensures Passes(t, Request(false, n, fee, 0, t.now))
  {
    PaidAmounts(t.now, filler, b, Money);
    PaidAmounts(t.now, filler, b, Records);
    PermitsMeans(t.limits, t.logs, t.now, n, fee, 0);
  }

  /** One more confirmation is prepared and passes its check. */
  lemma Joins(s: State, es: seq<Event>, now: int, limits: Limits, filler: nat, b: nat, n: nat, fee: nat, j: nat,
              m: Measure, k: nat, most: nat) returns (fs: seq<Event>)
    requires CalmRun(s, es, Racing(now, limits, filler, b, n, fee, j), m, k, most)
    requires j < k && n * UnitOf(fee, 0, m) <= most && HasRoom(limits, filler, b, n, fee)
    ensures CalmRun(s, fs, Racing(now, limits, filler, b, n, fee, j + 1), m, k, most)
  {
    var t, u := Racing(now, limits, filler, b, n, fee, j), Racing(now, limits, filler, b, n, fee, j + 1);
    var id, request := b + j, Request(false, n, fee, 0, now);
    var mid := t.(pending := map[id := request], prepared := u.prepared);
    assert Next(t, Prepare(id, request)) == mid;
    RacingIsCrowded(mid, now, limits, filler, b, n, fee, j, m, k, most);
    CalmStep(s, es, t, Prepare(id, request), mid, m, k, most);
    fs := es + [Prepare(id, request)];
    BatchPasses(mid, filler, b, n, fee);
    assert mid.pending - {id} == map[] && u.confirms == t.confirms + [Confirm(id, n, fee, 0)];
    RacingIsCrowded(u, now, limits, filler, b, n, fee, j + 1, m, k, most);
    CalmStep(s, fs, mid, Take(id), u, m, k, most);
    fs := fs + [Take(id)];
  }

  /** One record more is prepared, confirmed and paid for, with nothing else under way. */
  lemma PaysOne(s: State, es: seq<Event>, now: int, limits: Limits, filler: nat, b: nat, n: nat, fee: nat,
                m: Measure, k: nat, most: nat) returns (fs: seq<Event>)
    requires CalmRun(s, es, Racing(now, limits, filler, b, n, fee, 0), m, k, most)
    requires k >= 1 && UnitOf(filler, 0, m) <= most && HasRoom(limits, filler, b, 1, filler)
    ensures CalmRun(s, fs, Racing(now, limits, filler, b + 1, n, fee, 0), m, k, most)
  {
    assert Racing(now, limits, filler, b, n, fee, 0) == Racing(now, limits, filler, b, 1, filler, 0);
    fs := Joins(s, es, now, limits, filler, b, 1, filler, 0, m, k, most);
    var t, u := Racing(now, limits, filler, b, 1, filler, 1), Racing(now, limits, filler, b + 1, n, fee, 0);
    var settle := Settle(b, Some(""));
    assert t.confirms[b := Confirm(b, 0, filler, 0)] == u.confirms;
    assert t.logs + [Spending("", "", filler, 0, now)] == u.logs;
    HoldersAfter(HeldBy(u.confirms, m), b + 1);
    CalmStep(s, fs, t, settle, u, m, k, most);
    fs := fs + [settle];
  }

  lemma {:induction false} OneByOne(now: int, limits: Limits, filler: nat, b: nat, n: nat, fee: nat, m: Measure, k: nat,
                                    most: nat)
    returns (es: seq<Event>)
    requires k >= 1 && UnitOf(filler, 0, m) <= most && HasRoom(limits, filler, b, 0, filler)
    ensures CalmRun(Initial(now, limits), es, Racing(now, limits, filler, b, n, fee, 0), m, k, most)
  {
    if b == 0 {
      es := [];
      assert Racing(now, limits, filler, 0, n, fee, 0) == Initial(now, limits);
    } else {
      es := OneByOne(now, limits, filler, b - 1, n, fee, m, k, most);
      es := PaysOne(Initial(now, limits), es, now, limits, filler, b - 1, n, fee, m, k, most);
    }
  }

  lemma {:induction false} AllAtOnce(now: int, limits: Limits, filler: nat, b: nat, n: nat, fee: nat, j: nat,
                                     m: Measure, k: nat, most: nat)
    returns (es: seq<Event>)
    requires j <= k && k >= 1 && UnitOf(filler, 0, m) <= most && n * UnitOf(fee, 0, m) <= most
    requires filler <= limits.maxFee && HasRoom(limits, filler, b, n, fee)
    ensures CalmRun(Initial(now, limits), es, Racing(now, limits, filler, b, n, fee, j), m, k, most)
    decreases j
  {
    if j == 0 {
      es := OneByOne(now, limits, filler, b, n, fee, m, k, most);
    } else {
      es := AllAtOnce(now, limits, filler, b, n, fee, j - 1, m, k, most);
      es := Joins(Initial(now, limits), es, now, limits, filler, b, n, fee, j - 1, m, k, most);
    }
  }

  /**
   * The bound of `DailyCapHolds` is reached for every cap, every cost and every number of confirmations
   * in flight, for the money spent as for the number of records, whenever single records that are no
   * dearer can use the cap up to one cost less within the other limits: then `k` confirmations of that
   * cost all pass their check before any is logged, and all are paid.
   */
  lemma RacersAllPay(now: int, limits: Limits, filler: nat, b: nat, n: nat, fee: nat, m: Measure, k: nat, cost: nat)
    requires cost == n * UnitOf(fee, 0, m) && b * UnitOf(filler, 0, m) + cost == Cap(limits, m) && k >= 1
    requires UnitOf(filler, 0, m) <= cost && filler <= limits.maxFee && HasRoom(limits, filler, b, n, fee)
    ensures exists es, t ::
      && Run(Initial(now, limits), es, t) && Calm(Initial(now, limits), es, m, k, cost)
      && SpentIn(LogOf(t.logs, m), now, now) == Cap(limits, m) + (k - 1) * cost
  {
    var es := AllAtOnce(now, limits, filler, b, n, fee, k, m, k, cost);
    var t := Racing(now, limits, filler, b, n, fee, k);
    RacingIsCrowded(t, now, limits, filler, b, n, fee, k, m, k, cost);
    var fs, u := SettleAll(Initial(now, limits), es, t, m, k, cost);
    RacersAwait(now, limits, filler, b, n, fee, k, m);
    PaidAmounts(now, filler, b, m);
    assert k * cost == cost + (k - 1) * cost;
  }
}
