/**
 * Any number of submissions racing through `acceptDeclaration`, interleaved at every await: the
 * lookup by digest, the two counts, the insert, the lookup after a conflict, and the enqueue.
 */
module AcceptRace {
  import opened Bytes
  import opened Outcomes
  import opened Store
  import RollingBudget

  datatype Answer = Accepted | Existing(id: RowId) | AgentQuota | GlobalQuota | NonceReused

  datatype Pc = Looking | CountingAgent | CountingAll | Inserting | Selecting | Enqueueing | Done(answer: Answer) | Lost

  /** A submission that passed the checks: what it asks to store, its row id, and its reading of the clock. */
  datatype Sub = Sub(id: RowId, content: Content, arrived: int, pc: Pc)

  /** `order` remembers the order in which rows were stored. */
  datatype State = State(
    now: int, agentQuota: nat, globalQuota: nat,
    rows: map<RowId, Row>, order: seq<RowId>, subs: seq<Sub>, jobs: seq<RowId>)

  function Initial(now: int, agentQuota: nat, globalQuota: nat): State {
    State(now, agentQuota, globalQuota, map[], [], [], [])
  }

  datatype Event =
    | Pass(millis: nat)
    | Arrive(id: RowId, content: Content)
    | Step(i: nat)                   // the statement a submission is at takes effect
    | Break(i: nat)                  // an await throws, or the process dies
    | Anchor(id: RowId, row: Row)    // the anchoring protocol moves a row

  predicate Unfinished(sub: Sub) { !sub.pc.Done? && !sub.pc.Lost? }

  predicate Enabled(s: State, e: Event) {
    match e
    case Pass(_) => true
    case Arrive(id, _) => id !in s.rows && forall i :: 0 <= i < |s.subs| ==> s.subs[i].id != id
    case Step(i) => i < |s.subs| && Unfinished(s.subs[i])
    case Break(i) => i < |s.subs| && Unfinished(s.subs[i])
    case Anchor(id, row) => id in s.rows && row.content == s.rows[id].content
  }

  ghost function FindDigest(rows: map<RowId, Row>, digest: Bytes): (r: Option<RowId>)
    ensures r.Some? ==> r.value in rows && rows[r.value].content.digest == digest
    ensures r.None? ==> forall id :: id in rows ==> rows[id].content.digest != digest
  {
    if id :| id in rows && rows[id].content.digest == digest then Some(id) else None
  }

  /** The row a submission would store now; the table stamps it. */
  function Stamped(s: State, sub: Sub): Content { sub.content.(createdAt := s.now) }

  predicate Fits(s: State, sub: Sub) { CanInsert(s.rows, sub.id, Stamped(s, sub)) }

  /** Where a submission goes when its statement takes effect. */
  ghost function PcAfter(s: State, sub: Sub): Pc {
    match sub.pc
    case Looking =>
      (match FindDigest(s.rows, sub.content.digest)
       case Some(id) => Done(Existing(id))
       case None => CountingAgent)
    case CountingAgent =>
      if |Since(s.rows, sub.arrived - RollingBudget.DAY, Some(sub.content.agent))| >= s.agentQuota then Done(AgentQuota)
      else CountingAll
    case CountingAll =>
      if |Since(s.rows, sub.arrived - RollingBudget.DAY, None)| >= s.globalQuota then Done(GlobalQuota) else Inserting
    case Inserting => if Fits(s, sub) then Enqueueing else Selecting
    case Selecting =>
      (match FindDigest(s.rows, sub.content.digest)
       case Some(id) => Done(Existing(id))
       case None => Done(NonceReused))
    case Enqueueing => Done(Accepted)
    case Done(_) => sub.pc
    case Lost => sub.pc
  }

  ghost function Next(s: State, e: Event): State
    requires Enabled(s, e)
  {
    match e
    case Pass(millis) => s.(now := s.now + millis)
    case Arrive(id, content) => s.(subs := s.subs + [Sub(id, content, s.now, Looking)])
    case Break(i) => s.(subs := s.subs[i := s.subs[i].(pc := Lost)])
    case Anchor(id, row) => s.(rows := s.rows[id := row])
    case Step(i) =>
      var sub := s.subs[i];
      var moved := s.(subs := s.subs[i := sub.(pc := PcAfter(s, sub))]);
      if sub.pc.Inserting? && Fits(s, sub) then
        moved.(rows := s.rows[sub.id := NewRow(Stamped(s, sub))], order := s.order + [sub.id])
      else if sub.pc.Enqueueing? then moved.(jobs := s.jobs + [sub.id])
      else moved
  }

  ghost predicate Run(s: State, es: seq<Event>, t: State)
    decreases |es|
  {
    if es == [] then s == t else Enabled(s, es[0]) && Run(Next(s, es[0]), es[1..], t)
  }

  lemma {:induction false} RunThen(s: State, es: seq<Event>, t: State, e: Event)
    requires Run(s, es, t) && Enabled(t, e)
    ensures Run(s, es + [e], Next(t, e))
    decreases |es|
  {
    if es == [] {
      assert [e][1..] == [] && es + [e] == [e];
    } else {
      RunThen(Next(s, es[0]), es[1..], t, e);
      assert (es + [e])[1..] == es[1..] + [e];
    }
  }

  // ---------------------------------------------------------------- what every state keeps

  /** Row `id` is what this submission asked for, stamped when it was stored. */
  predicate Holds(s: State, sub: Sub) {
    sub.id in s.rows && sub.content.(createdAt := s.rows[sub.id].content.createdAt) == s.rows[sub.id].content
  }

  predicate SameDigest(s: State, id: RowId, sub: Sub) {
    id in s.rows && s.rows[id].content.digest == sub.content.digest
  }

  predicate SameNonce(s: State, id: RowId, sub: Sub) {
    && id in s.rows && s.rows[id].content.digest != sub.content.digest
    && s.rows[id].content.agent == sub.content.agent && s.rows[id].content.nonce == sub.content.nonce
  }

  ghost predicate InTheWay(s: State, sub: Sub) {
    exists id :: id in s.rows && Conflicts(s.rows[id].content, sub.content)
  }

  /** What the place of a submission says about the table and the queue. */
  ghost predicate SubTrue(s: State, sub: Sub) {
    && sub.arrived <= s.now
    && (sub.id in s.jobs <==> sub.pc == Done(Accepted))
    && (sub.id in s.rows ==> Holds(s, sub))
    && match sub.pc
       case Enqueueing => sub.id in s.rows
       case Lost => true
       case Selecting => sub.id !in s.rows && InTheWay(s, sub)
       case Done(Accepted) => sub.id in s.rows
       case Done(Existing(id)) => sub.id !in s.rows && SameDigest(s, id, sub)
       case Done(NonceReused) => sub.id !in s.rows && exists id :: SameNonce(s, id, sub)
       case Done(AgentQuota) =>
         sub.id !in s.rows && |Since(s.rows, sub.arrived - RollingBudget.DAY, Some(sub.content.agent))| >= s.agentQuota
       case Done(GlobalQuota) => sub.id !in s.rows && |Since(s.rows, sub.arrived - RollingBudget.DAY, None)| >= s.globalQuota
       case _ => sub.id !in s.rows
  }

  predicate Made(sub: Sub, id: RowId) { sub.id == id }

  ghost predicate TableTrue(s: State) {
    && Unique(s.rows)
    && (forall id :: id in s.rows ==> s.rows[id].content.createdAt <= s.now)
    && (forall id :: id in s.rows <==> id in s.order)
    && (forall j, k :: 0 <= j < k < |s.order| ==> s.order[j] != s.order[k])
    && (forall id :: id in s.rows ==> exists i :: 0 <= i < |s.subs| && Made(s.subs[i], id))
  }

  ghost predicate QueueTrue(s: State) {
    && (forall id :: id in s.jobs ==> exists i :: 0 <= i < |s.subs| && Made(s.subs[i], id))
    && (forall j, k :: 0 <= j < k < |s.jobs| ==> s.jobs[j] != s.jobs[k])
  }

  ghost predicate SubsTrue(s: State) {
    && (forall i :: 0 <= i < |s.subs| ==> SubTrue(s, s.subs[i]))
    && (forall i, j :: 0 <= i < j < |s.subs| ==> s.subs[i].id != s.subs[j].id)
  }

  ghost predicate Sound(s: State) { TableTrue(s) && QueueTrue(s) && SubsTrue(s) }

  /** No step takes a row away or changes what it says. */
  predicate Extends(s: State, t: State) {
    && s.now <= t.now && s.agentQuota == t.agentQuota && s.globalQuota == t.globalQuota
    && (forall id :: id in s.rows ==> id in t.rows && t.rows[id].content == s.rows[id].content)
  }

  /** Rows that were counted are still there to be counted. */
  lemma CountsGrow(s: State, t: State, since: int, agent: Option<Bytes>)
    requires Extends(s, t)
    ensures |Since(s.rows, since, agent)| <= |Since(t.rows, since, agent)|
  {
    var before, after := Since(s.rows, since, agent), Since(t.rows, since, agent);
    assert before <= after && after == before + (after - before);
  }

  lemma StepExtends(s: State, e: Event)
    requires Enabled(s, e)
    ensures Extends(s, Next(s, e))
  {
  }

  /** What is true of a submission stays true while others move. */
  lemma OthersStayTrue(s: State, t: State, sub: Sub)
    requires SubTrue(s, sub) && Extends(s, t)
    requires sub.id in t.rows <==> sub.id in s.rows
    requires sub.id in t.jobs <==> sub.id in s.jobs
    ensures SubTrue(t, sub)
  {
    if sub.pc.Selecting? {
      var id :| id in s.rows && Conflicts(s.rows[id].content, sub.content);
      assert id in t.rows && Conflicts(t.rows[id].content, sub.content);
    } else if sub.pc == Done(NonceReused) {
      var id :| SameNonce(s, id, sub);
      assert SameNonce(t, id, sub);
    } else {
      CountsGrow(s, t, sub.arrived - RollingBudget.DAY, Some(sub.content.agent));
      CountsGrow(s, t, sub.arrived - RollingBudget.DAY, None);
    }
  }

  lemma InserterStaysTrue(s: State, i: nat)
    requires Sound(s) && Enabled(s, Step(i)) && s.subs[i].pc.Inserting?
    ensures SubTrue(Next(s, Step(i)), Next(s, Step(i)).subs[i])
  {
    var t, sub := Next(s, Step(i)), s.subs[i];
    assert SubTrue(s, sub);
    if !Fits(s, sub) {
      var id :| id in s.rows && Conflicts(s.rows[id].content, Stamped(s, sub));
      assert id in t.rows && Conflicts(t.rows[id].content, sub.content);
    }
  }

  lemma SelecterStaysTrue(s: State, i: nat)
    requires Sound(s) && Enabled(s, Step(i)) && s.subs[i].pc.Selecting?
    ensures SubTrue(Next(s, Step(i)), Next(s, Step(i)).subs[i])
  {
    var t, sub := Next(s, Step(i)), s.subs[i];
    assert SubTrue(s, sub);
    if FindDigest(s.rows, sub.content.digest).None? {
      var id :| id in s.rows && Conflicts(s.rows[id].content, sub.content);
      assert SameNonce(t, id, sub.(pc := Done(NonceReused)));
    }
  }

  /** A submission that only reads: its lookup and its two counts. */
  lemma ReaderStaysTrue(s: State, i: nat)
    requires Sound(s) && Enabled(s, Step(i))
    requires s.subs[i].pc.Looking? || s.subs[i].pc.CountingAgent? || s.subs[i].pc.CountingAll?
    ensures SubTrue(Next(s, Step(i)), Next(s, Step(i)).subs[i])
  {
    assert SubTrue(s, s.subs[i]);
  }

  lemma EnqueuerStaysTrue(s: State, i: nat)
    requires Sound(s) && Enabled(s, Step(i)) && s.subs[i].pc.Enqueueing?
    ensures SubTrue(Next(s, Step(i)), Next(s, Step(i)).subs[i])
  {
    assert SubTrue(s, s.subs[i]);
  }

  lemma StepperStaysTrue(s: State, i: nat)
    requires Sound(s) && Enabled(s, Step(i))
    ensures SubTrue(Next(s, Step(i)), Next(s, Step(i)).subs[i])
  {
    if s.subs[i].pc.Inserting? {
      InserterStaysTrue(s, i);
    } else if s.subs[i].pc.Selecting? {
      SelecterStaysTrue(s, i);
    } else if s.subs[i].pc.Enqueueing? {
      EnqueuerStaysTrue(s, i);
    } else {
      ReaderStaysTrue(s, i);
    }
  }

  lemma SubsStayTrue(s: State, e: Event, i: nat)
    requires Sound(s) && Enabled(s, e) && i < |Next(s, e).subs|
    ensures SubTrue(Next(s, e), Next(s, e).subs[i])
  {
    var t := Next(s, e);
    if e == Step(i) {
      StepperStaysTrue(s, i);
    } else if i < |s.subs| {
      assert SubTrue(s, s.subs[i]);
      StepExtends(s, e);
      if e != Break(i) {
        OthersStayTrue(s, t, s.subs[i]);
      }
    } else {
      assert e.id !in s.rows && e.id !in s.jobs;
    }
  }

  /** Submissions keep their ids, and new ones come last. */
  predicate SubsGrow(s: State, t: State) {
    |s.subs| <= |t.subs| && forall i :: 0 <= i < |s.subs| ==> t.subs[i].id == s.subs[i].id
  }

  predicate Inserts(s: State, e: Event) {
    e.Step? && e.i < |s.subs| && s.subs[e.i].pc.Inserting? && Fits(s, s.subs[e.i])
  }

  lemma SameTableTrue(s: State, t: State)
    requires TableTrue(s) && Extends(s, t) && SubsGrow(s, t) && t.rows.Keys == s.rows.Keys && t.order == s.order
    ensures TableTrue(t)
  {
    forall id | id in t.rows ensures exists i :: 0 <= i < |t.subs| && Made(t.subs[i], id) {
      var i :| 0 <= i < |s.subs| && Made(s.subs[i], id);
      assert Made(t.subs[i], id);
    }
  }

  lemma NothingInserted(s: State, e: Event)
    requires Enabled(s, e) && !Inserts(s, e)
    ensures Extends(s, Next(s, e)) && SubsGrow(s, Next(s, e))
    ensures Next(s, e).rows.Keys == s.rows.Keys && Next(s, e).order == s.order
  {
  }

  lemma TableStaysTrue(s: State, e: Event)
    requires Sound(s) && Enabled(s, e)
    ensures TableTrue(Next(s, e))
  {
    if Inserts(s, e) {
      InsertTableTrue(s, e.i);
    } else {
      NothingInserted(s, e);
      SameTableTrue(s, Next(s, e));
    }
  }

  lemma InsertTableTrue(s: State, i: nat)
    requires Sound(s) && Enabled(s, Step(i)) && s.subs[i].pc.Inserting? && Fits(s, s.subs[i])
    ensures TableTrue(Next(s, Step(i)))
  {
    var t, sub := Next(s, Step(i)), s.subs[i];
    assert s.rows - {sub.id} == s.rows;
    InsertKeepsUnique(s.rows, sub.id, Stamped(s, sub));
    InsertIsMade(s, i);
  }

  lemma InsertIsMade(s: State, i: nat)
    requires TableTrue(s) && Enabled(s, Step(i)) && s.subs[i].pc.Inserting? && Fits(s, s.subs[i])
    ensures var t := Next(s, Step(i)); forall id :: id in t.rows ==> exists j :: 0 <= j < |t.subs| && Made(t.subs[j], id)
  {
    var t, sub := Next(s, Step(i)), s.subs[i];
    forall id | id in t.rows ensures exists j :: 0 <= j < |t.subs| && Made(t.subs[j], id) {
      if id == sub.id {
        assert Made(t.subs[i], id);
      } else {
        var j :| 0 <= j < |s.subs| && Made(s.subs[j], id);
        assert Made(t.subs[j], id);
      }
    }
  }

  lemma SameQueueTrue(s: State, t: State)
    requires QueueTrue(s) && Extends(s, t) && SubsGrow(s, t) && t.jobs == s.jobs
    ensures QueueTrue(t)
  {
    forall id | id in t.jobs ensures exists i :: 0 <= i < |t.subs| && Made(t.subs[i], id) {
      var i :| 0 <= i < |s.subs| && Made(s.subs[i], id);
      assert Made(t.subs[i], id);
    }
  }

  lemma EnqueueKeepsQueue(s: State, i: nat)
    requires Sound(s) && Enabled(s, Step(i)) && s.subs[i].pc.Enqueueing?
    ensures QueueTrue(Next(s, Step(i)))
  {
    var t := Next(s, Step(i));
    assert SubTrue(s, s.subs[i]);
    forall id | id in t.jobs ensures exists j :: 0 <= j < |t.subs| && Made(t.subs[j], id) {
      if id in s.jobs {
        var j :| 0 <= j < |s.subs| && Made(s.subs[j], id);
        assert Made(t.subs[j], id);
      } else {
        assert Made(t.subs[i], id);
      }
    }
  }

  lemma QueueStaysTrue(s: State, e: Event)
    requires Sound(s) && Enabled(s, e)
    ensures QueueTrue(Next(s, e))
  {
    if e.Step? && s.subs[e.i].pc.Enqueueing? {
      EnqueueKeepsQueue(s, e.i);
    } else {
      StepExtends(s, e);
      SameQueueTrue(s, Next(s, e));
    }
  }

  lemma StepSound(s: State, e: Event)
    requires Sound(s) && Enabled(s, e)
    ensures Sound(Next(s, e))
  {
    TableStaysTrue(s, e);
    QueueStaysTrue(s, e);
    forall i | 0 <= i < |Next(s, e).subs| ensures SubTrue(Next(s, e), Next(s, e).subs[i]) {
      SubsStayTrue(s, e, i);
    }
  }

  lemma {:induction false} RunSound(s: State, es: seq<Event>, t: State)
    requires Sound(s) && Run(s, es, t)
    ensures Sound(t) && Extends(s, t)
    decreases |es|
  {
    if es == [] {
    } else {
      StepSound(s, es[0]);
      StepExtends(s, es[0]);
      RunSound(Next(s, es[0]), es[1..], t);
    }
  }
}
