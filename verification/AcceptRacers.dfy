/** The bound on the rolling quotas is reached: racers all see the same room. */
module AcceptRacers {
  import opened Bytes
  import opened Outcomes
  import opened Store
  import opened AcceptRace
  import opened AcceptQuota
  import opened RollingBudget

  // ---------------------------------------------------------------- staying calm

  lemma {:induction false} CalmThen(s: State, es: seq<Event>, t: State, e: Event, agent: Option<Bytes>, k: nat)
    requires Run(s, es, t) && Enabled(t, e) && Calm(s, es, agent, k)
    requires Holders(HeldBy(Next(t, e).subs, agent)) <= k
    ensures Calm(s, es + [e], agent, k)
    decreases |es|
  {
    if es == [] {
      assert [e][1..] == [] && es + [e] == [e];
    } else {
      CalmThen(Next(s, es[0]), es[1..], t, e, agent, k);
      assert (es + [e])[1..] == es[1..] + [e];
    }
  }

  /** A run that never has more than `k` submissions in flight, for any quota. */
  ghost predicate CalmRun(s: State, es: seq<Event>, t: State, k: nat) {
    Run(s, es, t) && forall agent :: Calm(s, es, agent, k)
  }

  /** The first `m` submissions are past their insert, and at most `k` others have arrived. */
  predicate Few(subs: seq<Sub>, m: nat, k: nat) {
    m <= |subs| <= m + k && forall i :: 0 <= i < m ==> subs[i].pc.Enqueueing?
  }

  lemma CalmStep(s: State, es: seq<Event>, t: State, e: Event, m: nat, k: nat) returns (fs: seq<Event>, u: State)
    requires CalmRun(s, es, t, k) && Enabled(t, e) && Few(Next(t, e).subs, m, k)
    ensures CalmRun(s, fs, u, k) && u == Next(t, e)
  {
    fs, u := es + [e], Next(t, e);
    RunThen(s, es, t, e);
    forall agent ensures Calm(s, fs, agent, k) {
      HoldersAfter(HeldBy(u.subs, agent), m);
      CalmThen(s, es, t, e, agent, k);
    }
  }

  // ---------------------------------------------------------------- the race

  /** `n` submissions have passed every check and `m` of them have stored their row. */
  function Racing(now: int, agentQuota: nat, globalQuota: nat, cs: seq<Content>, n: nat, m: nat): State
    requires m <= n <= |cs|
  {
    State(now, agentQuota, globalQuota,
          map id: nat | 0 <= id < m :: NewRow(cs[id].(createdAt := now)),
          seq(m, id => id),
          seq(n, i requires 0 <= i < n => Sub(i, cs[i], now, if i < m then Enqueueing else Inserting)),
          [])
  }

  predicate Apart(cs: seq<Content>) { forall i, j :: 0 <= i < j < |cs| ==> !Conflicts(cs[i], cs[j]) }

  lemma {:induction false} FewBelow(ids: set<RowId>, m: nat)
    requires forall id :: id in ids ==> id < m
    ensures |ids| <= m
  {
    if m == 0 {
      assert ids == {};
    } else {
      FewBelow(ids - {m - 1}, m - 1);
      assert ids <= (ids - {m - 1}) + {m - 1};
    }
  }

  /** With fewer rows than either quota and none of its digest, a submission passes whatever it is at. */
  lemma Passes(s: State, i: nat, m: nat)
    requires i < |s.subs| && m < s.agentQuota && m < s.globalQuota
    requires forall id :: id in s.rows ==> id < m && s.rows[id].content.digest != s.subs[i].content.digest
    ensures s.subs[i].pc.Looking? ==> PcAfter(s, s.subs[i]) == CountingAgent
    ensures s.subs[i].pc.CountingAgent? ==> PcAfter(s, s.subs[i]) == CountingAll
    ensures s.subs[i].pc.CountingAll? ==> PcAfter(s, s.subs[i]) == Inserting
  {
    FewBelow(Since(s.rows, s.subs[i].arrived - DAY, Some(s.subs[i].content.agent)), m);
    FewBelow(Since(s.rows, s.subs[i].arrived - DAY, None), m);
  }

  /** One more submission comes as far as the insert. */
  lemma Joins(s: State, es: seq<Event>, t: State, content: Content, m: nat, k: nat) returns (fs: seq<Event>, u: State)
    requires CalmRun(s, es, t, k) && Few(t.subs, m, k) && |t.subs| < m + k
    requires m < t.agentQuota && m < t.globalQuota && |t.subs| !in t.rows
    requires forall i :: 0 <= i < |t.subs| ==> t.subs[i].id != |t.subs|
    requires forall id :: id in t.rows ==> id < m && t.rows[id].content.digest != content.digest
    ensures CalmRun(s, fs, u, k) && u == t.(subs := t.subs + [Sub(|t.subs|, content, t.now, Inserting)])
  {
    var n := |t.subs|;
    fs, u := CalmStep(s, es, t, Arrive(n, content), m, k);
    Passes(u, n, m);
    fs, u := CalmStep(s, fs, u, Step(n), m, k);
    Passes(u, n, m);
    fs, u := CalmStep(s, fs, u, Step(n), m, k);
    Passes(u, n, m);
    fs, u := CalmStep(s, fs, u, Step(n), m, k);
  }

  lemma JoinsRace(cs: seq<Content>, n: nat, m: nat, k: nat, s: State, es: seq<Event>, t: State)
    returns (fs: seq<Event>, u: State)
    requires m <= n < |cs| && n < m + k && Apart(cs) && m < t.agentQuota && m < t.globalQuota
    requires CalmRun(s, es, t, k) && t == Racing(t.now, t.agentQuota, t.globalQuota, cs, n, m)
    ensures CalmRun(s, fs, u, k) && u == Racing(t.now, t.agentQuota, t.globalQuota, cs, n + 1, m)
  {
    fs, u := Joins(s, es, t, cs[n], m, k);
    assert u.subs == Racing(t.now, t.agentQuota, t.globalQuota, cs, n + 1, m).subs;
  }

  lemma StoresRow(cs: seq<Content>, n: nat, m: nat, k: nat, s: State, es: seq<Event>, t: State)
    returns (fs: seq<Event>, u: State)
    requires m < n <= |cs| && n <= m + k && Apart(cs)
    requires CalmRun(s, es, t, k) && t == Racing(t.now, t.agentQuota, t.globalQuota, cs, n, m)
    ensures CalmRun(s, fs, u, k) && u == Racing(t.now, t.agentQuota, t.globalQuota, cs, n, m + 1)
  {
    InsertNext(t, Racing(t.now, t.agentQuota, t.globalQuota, cs, n, m + 1), cs, n, m);
    fs, u := CalmStep(s, es, t, Step(m), m, k);
  }

  lemma InsertNext(t: State, u: State, cs: seq<Content>, n: nat, m: nat)
    requires m < n <= |cs| && Apart(cs)
    requires t == Racing(t.now, t.agentQuota, t.globalQuota, cs, n, m)
    requires u == Racing(t.now, t.agentQuota, t.globalQuota, cs, n, m + 1)
    ensures Enabled(t, Step(m)) && Next(t, Step(m)) == u
  {
    assert Fits(t, t.subs[m]);
    var v := Next(t, Step(m));
    assert v.rows == u.rows;
    assert v.order == u.order;
    assert v.subs == u.subs;
  }

  // ---------------------------------------------------------------- up to the quota, and then all at once

  /** `b` declarations stored one after the other. */
  lemma {:induction false} OneByOne(now: int, agentQuota: nat, globalQuota: nat, cs: seq<Content>, b: nat, k: nat)
    returns (es: seq<Event>, t: State)
    requires b <= |cs| && Apart(cs) && b <= agentQuota && b <= globalQuota && k >= 1
    ensures t == Racing(now, agentQuota, globalQuota, cs, b, b)
    ensures CalmRun(Initial(now, agentQuota, globalQuota), es, t, k)
  {
    var s := Initial(now, agentQuota, globalQuota);
    if b == 0 {
      es, t := [], s;
      assert t == Racing(now, agentQuota, globalQuota, cs, 0, 0);
      forall agent ensures Calm(s, [], agent, k) {
        NoHolders(HeldBy(s.subs, agent));
      }
    } else {
      es, t := OneByOne(now, agentQuota, globalQuota, cs, b - 1, k);
      es, t := JoinsRace(cs, b - 1, b - 1, k, s, es, t);
      es, t := StoresRow(cs, b, b - 1, k, s, es, t);
    }
  }

  /** Then all others up to the insert, while only `b` rows are stored. */
  lemma {:induction false} AllAtOnce(now: int, agentQuota: nat, globalQuota: nat, cs: seq<Content>, b: nat, n: nat,
                                     k: nat)
    returns (es: seq<Event>, t: State)
    requires b <= n <= |cs| && n <= b + k && Apart(cs) && b < agentQuota && b < globalQuota && k >= 1
    ensures t == Racing(now, agentQuota, globalQuota, cs, n, b)
    ensures CalmRun(Initial(now, agentQuota, globalQuota), es, t, k)
    decreases n
  {
    if n == b {
      es, t := OneByOne(now, agentQuota, globalQuota, cs, b, k);
    } else {
      es, t := AllAtOnce(now, agentQuota, globalQuota, cs, b, n - 1, k);
      es, t := JoinsRace(cs, n - 1, b, k, Initial(now, agentQuota, globalQuota), es, t);
    }
  }

  lemma {:induction false} AllStored(now: int, agentQuota: nat, globalQuota: nat, cs: seq<Content>, b: nat, m: nat,
                                     k: nat)
    returns (es: seq<Event>, t: State)
    requires b <= m <= |cs| && |cs| <= b + k && Apart(cs) && b < agentQuota && b < globalQuota && k >= 1
    ensures t == Racing(now, agentQuota, globalQuota, cs, |cs|, m)
    ensures CalmRun(Initial(now, agentQuota, globalQuota), es, t, k)
    decreases m
  {
    if m == b {
      es, t := AllAtOnce(now, agentQuota, globalQuota, cs, b, |cs|, k);
    } else {
      es, t := AllStored(now, agentQuota, globalQuota, cs, b, m - 1, k);
      es, t := StoresRow(cs, |cs|, m - 1, k, Initial(now, agentQuota, globalQuota), es, t);
    }
  }

  lemma {:induction false} AllBelow(ids: set<RowId>, n: nat)
    requires forall id: RowId :: id in ids <==> id < n
    ensures |ids| == n
  {
    if n == 0 {
      assert ids == {};
    } else {
      AllBelow(ids - {n - 1}, n - 1);
      assert ids == (ids - {n - 1}) + {n - 1};
    }
  }

  lemma CountAll(rows: map<RowId, Row>, n: nat, now: int, agent: Option<Bytes>)
    requires forall id: RowId :: id in rows <==> id < n
    requires forall id :: id in rows ==> rows[id].content.createdAt == now && OfAgent(rows[id].content, agent)
    ensures |CreatedIn(rows, now, now, agent)| == n
  {
    assert CreatedIn(rows, now, now, agent) == rows.Keys;
    AllBelow(rows.Keys, n);
  }

  /**
   * The bound of `QuotaHolds` is reached for every quota and every number in flight, for an agent as for
   * all agents together: any declarations of one agent that do not conflict, as many as the smaller
   * quota plus `k - 1`, can all be stored at one instant with never more than `k` between count and
   * insert. Up to the quota less one they come one by one; the last `k` all count before any inserts.
   */
  lemma RacersAllPass(now: int, agentQuota: nat, globalQuota: nat, cs: seq<Content>, agent: Bytes, quota: nat, k: nat)
    requires Apart(cs) && quota >= 1 && k >= 1 && |cs| == quota + k - 1
    requires quota <= agentQuota && quota <= globalQuota
    requires forall i :: 0 <= i < |cs| ==> cs[i].agent == agent
    ensures exists es, t ::
      && Run(Initial(now, agentQuota, globalQuota), es, t)
      && (forall who :: Calm(Initial(now, agentQuota, globalQuota), es, who, k))
      && |CreatedIn(t.rows, now, now, Some(agent))| == quota + k - 1
      && |CreatedIn(t.rows, now, now, None)| == quota + k - 1
  {
    var es, t := AllStored(now, agentQuota, globalQuota, cs, quota - 1, |cs|, k);
    CountAll(t.rows, |cs|, now, Some(agent));
    CountAll(t.rows, |cs|, now, None);
  }
}
