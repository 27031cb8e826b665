/**
 * A budget over a rolling window, checked before and charged after: what it guarantees when several
 * clients may be between their check and their charge.
 */
module RollingBudget {

  /** The length of the window, 24 hours in milliseconds. */
  const DAY := 24 * 60 * 60 * 1000

  datatype Entry = Entry(time: int, weight: nat)

  /** What has been charged, and what each client has been allowed and not yet charged. */
  datatype Budget = Budget(now: int, log: seq<Entry>, held: seq<nat>)

  datatype Move =
    | Pass(millis: nat)
    | Open                              // a client arrives, holding nothing
    | Admit(i: nat, weight: nat, asOf: int)   // the check succeeds, with the clock read at `asOf`
    | Charge(i: nat, weight: nat)       // part of what is held enters the log
    | Drop(i: nat, weight: nat)         // part of what is held is given up

  /** Charges at or after `lo`. */
  function SpentFrom(log: seq<Entry>, lo: int): nat {
    if log == [] then 0
    else SpentFrom(log[..|log| - 1], lo) + if log[|log| - 1].time >= lo then log[|log| - 1].weight else 0
  }

  /** Charges in the closed interval from `lo` to `hi`. */
  function SpentIn(log: seq<Entry>, lo: int, hi: int): nat {
    if log == [] then 0
    else SpentIn(log[..|log| - 1], lo, hi)
         + if lo <= log[|log| - 1].time <= hi then log[|log| - 1].weight else 0
  }

  function Sum(held: seq<nat>): nat {
    if held == [] then 0 else Sum(held[..|held| - 1]) + held[|held| - 1]
  }

  function Holders(held: seq<nat>): nat {
    if held == [] then 0 else Holders(held[..|held| - 1]) + if held[|held| - 1] > 0 then 1 else 0
  }

  predicate Allowed(b: Budget, m: Move, cap: int) {
    match m
    case Pass(_) => true
    case Open => true
    case Admit(i, weight, asOf) =>
      i < |b.held| && b.held[i] == 0 && asOf <= b.now
      && (weight == 0 || SpentFrom(b.log, asOf - DAY) + weight <= cap)
    case Charge(i, weight) => i < |b.held| && weight <= b.held[i]
    case Drop(i, weight) => i < |b.held| && weight <= b.held[i]
  }

  function After(b: Budget, m: Move, cap: int): Budget
    requires Allowed(b, m, cap)
  {
    match m
    case Pass(millis) => b.(now := b.now + millis)
    case Open => b.(held := b.held + [0])
    case Admit(i, weight, _) => b.(held := b.held[i := weight])
    case Charge(i, weight) =>
      b.(log := b.log + [Entry(b.now, weight)], held := b.held[i := b.held[i] - weight])
    case Drop(i, weight) => b.(held := b.held[i := b.held[i] - weight])
  }

  // ---------------------------------------------------------------- sums

  lemma SpentFromAppend(log: seq<Entry>, e: Entry, lo: int)
    ensures SpentFrom(log + [e], lo) == SpentFrom(log, lo) + if e.time >= lo then e.weight else 0
  {
    assert (log + [e])[..|log|] == log;
  }

  lemma SpentInAppend(log: seq<Entry>, e: Entry, lo: int, hi: int)
    ensures SpentIn(log + [e], lo, hi) == SpentIn(log, lo, hi) + if lo <= e.time <= hi then e.weight else 0
  {
    assert (log + [e])[..|log|] == log;
  }

  lemma {:induction false} SpentMonotone(log: seq<Entry>, lo: int, later: int, hi: int)
    requires lo <= later
    ensures SpentFrom(log, later) <= SpentFrom(log, lo)
    ensures SpentIn(log, later, hi) <= SpentFrom(log, later)
  {
    if log == [] {
    } else {
      SpentMonotone(log[..|log| - 1], lo, later, hi);
    }
  }

  lemma {:induction false} SumUpdate(held: seq<nat>, i: nat, w: nat)
    requires i < |held|
    ensures Sum(held[i := w]) == Sum(held) - held[i] + w
  {
    var n := |held| - 1;
    if i < n {
      SumUpdate(held[..n], i, w);
      assert held[i := w][..n] == held[..n][i := w];
    } else {
      assert held[i := w][..n] == held[..n];
    }
  }

  lemma SumAppend(held: seq<nat>, w: nat)
    ensures Sum(held + [w]) == Sum(held) + w
  {
    assert (held + [w])[..|held|] == held;
  }

  /** With at most `k` holders of at most `most` each, all but one of them hold at most (k-1) * most. */
  lemma {:induction false} OthersHold(held: seq<nat>, i: nat, k: nat, most: nat)
    requires i < |held| && held[i] > 0 && Holders(held) <= k
    requires forall j :: 0 <= j < |held| ==> held[j] <= most
    ensures k >= 1 && Sum(held) - held[i] <= (k - 1) * most
  {
    var n := |held| - 1;
    if i < n {
      if held[n] > 0 {
        OthersHold(held[..n], i, k - 1, most);
        assert (k - 2) * most + most == (k - 1) * most;
      } else {
        OthersHold(held[..n], i, k, most);
      }
    } else {
      HoldersBound(held[..n], k - 1, most);
    }
  }

  lemma {:induction false} HoldersBound(held: seq<nat>, k: nat, most: nat)
    requires Holders(held) <= k
    requires forall j :: 0 <= j < |held| ==> held[j] <= most
    ensures Sum(held) <= k * most
  {
    if held == [] {
    } else {
      var n := |held| - 1;
      if held[n] > 0 {
        HoldersBound(held[..n], k - 1, most);
        assert (k - 1) * most + most == k * most;
      } else {
        HoldersBound(held[..n], k, most);
      }
    }
  }

  lemma {:induction false} HoldersAfter(held: seq<nat>, m: nat)
    requires m <= |held| && forall i :: 0 <= i < m ==> held[i] == 0
    ensures Holders(held) <= |held| - m
  {
    if |held| == m {
      NoHolders(held);
    } else {
      HoldersAfter(held[..|held| - 1], m);
    }
  }

  lemma {:induction false} NoHolders(held: seq<nat>)
    requires forall i :: 0 <= i < |held| ==> held[i] == 0
    ensures Holders(held) == 0
  {
    if held == [] {
    } else {
      NoHolders(held[..|held| - 1]);
    }
  }

  lemma {:induction false} HoldersUpdate(held: seq<nat>, i: nat, w: nat)
    requires i < |held| && held[i] > 0
    ensures Holders(held[i := w]) <= Holders(held)
  {
    var n := |held| - 1;
    if i < n {
      HoldersUpdate(held[..n], i, w);
      assert held[i := w][..n] == held[..n][i := w];
    } else {
      assert held[i := w][..n] == held[..n];
    }
  }

  lemma {:induction false} SomeoneHolds(held: seq<nat>) returns (i: nat)
    requires Sum(held) > 0
    ensures i < |held| && held[i] > 0
  {
    i := |held| - 1;
    if held[i] == 0 {
      i := SomeoneHolds(held[..i]);
    }
  }

  // ---------------------------------------------------------------- the guarantee

  /** Charged and still held together stay within the limit, in the current window and in every past one. */
  ghost predicate Within(b: Budget, limit: int) {
    && (forall i :: 0 <= i < |b.log| ==> b.log[i].time <= b.now)
    && (forall x :: x >= b.now - DAY ==> SpentFrom(b.log, x) + Sum(b.held) <= limit)
    && (forall lo, hi :: hi <= lo + DAY ==> SpentIn(b.log, lo, hi) <= limit)
  }

  /** At most `k` clients between check and charge, none holding more than `most`. */
  ghost predicate Crowded(b: Budget, k: nat, most: nat) {
    Holders(b.held) <= k && forall j :: 0 <= j < |b.held| ==> b.held[j] <= most
  }

  /** Holding no more, with the same log, keeps the limit. */
  lemma HoldLess(b: Budget, c: Budget, limit: int)
    requires Within(b, limit) && c.log == b.log && c.now >= b.now && Sum(c.held) <= Sum(b.held)
    ensures Within(c, limit)
  {
    forall x | x >= c.now - DAY ensures SpentFrom(c.log, x) + Sum(c.held) <= limit {
      assert SpentFrom(b.log, x) + Sum(b.held) <= limit;
    }
  }

  lemma EnterWithin(b: Budget, limit: int)
    requires Within(b, limit)
    ensures Within(b.(held := b.held + [0]), limit)
  {
    SumAppend(b.held, 0);
    HoldLess(b, b.(held := b.held + [0]), limit);
  }

  lemma AdmitWithin(b: Budget, m: Move, cap: int, k: nat, most: nat)
    requires m.Admit? && Allowed(b, m, cap) && k >= 1 && cap >= 0
    requires Within(b, cap + (k - 1) * most) && Crowded(After(b, m, cap), k, most)
    ensures Within(After(b, m, cap), cap + (k - 1) * most)
  {
    var c := After(b, m, cap);
    SumUpdate(b.held, m.i, m.weight);
    if m.weight > 0 {
      OthersHold(c.held, m.i, k, most);
      forall x | x >= c.now - DAY ensures SpentFrom(c.log, x) + Sum(c.held) <= cap + (k - 1) * most {
        SpentMonotone(b.log, m.asOf - DAY, x, x);
      }
    }
  }

  lemma ChargeWithin(b: Budget, m: Move, cap: int, limit: int)
    requires m.Charge? && Allowed(b, m, cap) && Within(b, limit)
    ensures Within(After(b, m, cap), limit)
  {
    var c := After(b, m, cap);
    var e := Entry(b.now, m.weight);
    SumUpdate(b.held, m.i, b.held[m.i] - m.weight);
    forall x | x >= c.now - DAY ensures SpentFrom(c.log, x) + Sum(c.held) <= limit {
      SpentFromAppend(b.log, e, x);
    }
    forall lo, hi | hi <= lo + DAY ensures SpentIn(c.log, lo, hi) <= limit {
      SpentInAppend(b.log, e, lo, hi);
      if lo <= b.now <= hi {
        SpentMonotone(b.log, lo, lo, hi);
      }
    }
  }

  /** One move keeps the limit, which leaves room beyond the cap for all clients in flight but one. */
  lemma MoveWithin(b: Budget, m: Move, cap: int, k: nat, most: nat)
    requires Allowed(b, m, cap) && k >= 1 && cap >= 0
    requires Within(b, cap + (k - 1) * most) && Crowded(After(b, m, cap), k, most)
    ensures Within(After(b, m, cap), cap + (k - 1) * most)
  {
    match m {
      case Pass(_) => HoldLess(b, After(b, m, cap), cap + (k - 1) * most);
      case Open => EnterWithin(b, cap + (k - 1) * most);
      case Admit(_, _, _) => AdmitWithin(b, m, cap, k, most);
      case Charge(_, _) => ChargeWithin(b, m, cap, cap + (k - 1) * most);
      case Drop(i, weight) =>
        SumUpdate(b.held, i, b.held[i] - weight);
        HoldLess(b, After(b, m, cap), cap + (k - 1) * most);
    }
  }
}
