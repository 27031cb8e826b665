/** One call of `acceptDeclaration` that nobody disturbs is a run of the machine of racing submissions. */
module AcceptCall {
  import opened Bytes
  import opened Outcomes
  import opened Store
  import opened Submissions
  import opened Accept
  import Verifier
  import Race = AcceptRace

  /** The quotas of the machine count rows; a negative quota admits as little as zero. */
  function Floor(quota: int): nat { if quota < 0 then 0 else quota }

  /** The machine has the tables, the quotas and the clock of the call, and has not seen its row id. */
  ghost predicate Ready(s: Race.State, cfg: V2Config, rows: map<RowId, Row>, jobs: seq<RowId>, id: RowId, now: int) {
    && s.rows == rows && s.jobs == jobs && s.now == now && Unique(rows)
    && s.agentQuota == Floor(cfg.agentDailyQuota) && s.globalQuota == Floor(cfg.globalDailyQuota)
    && id !in rows && forall i :: 0 <= i < |s.subs| ==> s.subs[i].id != id
  }

  /** The answer of the call, told by where its submission ends. */
  predicate Tells(pc: Race.Pc, id: RowId, r: Reply) {
    match pc
    case Done(Accepted) => r == Replied(202, id)
    case Done(Existing(j)) => r == Replied(200, j)
    case Done(AgentQuota) => r == Refused(AgentQuotaExceeded)
    case Done(GlobalQuota) => r == Refused(GlobalQuotaExceeded)
    case Done(NonceReused) => r == Refused(Refusal.NonceReused)
    case Lost => r == Threw
    case _ => false
  }

  /** One statement that only reads, by the last submission. */
  lemma Reads(s: Race.State, es: seq<Race.Event>, sub: Race.Sub) returns (fs: seq<Race.Event>)
    requires Race.Run(s, es, s.(subs := s.subs + [sub])) && Race.Unfinished(sub)
    requires !sub.pc.Enqueueing? && (sub.pc.Inserting? ==> !Race.Fits(s, sub))
    ensures Race.Run(s, fs, s.(subs := s.subs + [sub.(pc := Race.PcAfter(s, sub))]))
  {
    var t, e := s.(subs := s.subs + [sub]), Race.Step(|s.subs|);
    Race.RunThen(s, es, t, e);
    fs := es + [e];
    assert t.subs[|s.subs| := sub.(pc := Race.PcAfter(s, sub))] == s.subs + [sub.(pc := Race.PcAfter(s, sub))];
  }

  lemma FindsStored(rows: map<RowId, Row>, digest: Bytes)
    ensures Race.FindDigest(rows, digest).Some? <==> exists j :: Stores(rows, digest, j)
    ensures Race.FindDigest(rows, digest).Some? ==> Stores(rows, digest, Race.FindDigest(rows, digest).value)
  {
    if Race.FindDigest(rows, digest).Some? {
      assert Stores(rows, digest, Race.FindDigest(rows, digest).value);
    }
  }

  /** The lookup and the two counts: the submission stops there, or is about to insert. */
  lemma Checks(s: Race.State, cfg: V2Config, id: RowId, content: Content) returns (es: seq<Race.Event>, pc: Race.Pc)
    requires Ready(s, cfg, s.rows, s.jobs, id, s.now)
    ensures Race.Run(s, es, s.(subs := s.subs + [Race.Sub(id, content, s.now, pc)]))
    ensures if exists j :: Stores(s.rows, content.digest, j) then
              pc.Done? && pc.answer.Existing? && Stores(s.rows, content.digest, pc.answer.id)
            else if !HasRoomFor(cfg, s.rows, Some(content.agent), s.now) then pc == Race.Done(Race.AgentQuota)
            else if !HasRoomFor(cfg, s.rows, None, s.now) then pc == Race.Done(Race.GlobalQuota)
            else pc == Race.Inserting
  {
    var sub := Race.Sub(id, content, s.now, Race.Looking);
    var arrive := Race.Arrive(id, content);
    Race.RunThen(s, [], s, arrive);
    es := [] + [arrive];
    FindsStored(s.rows, content.digest);
    es := Reads(s, es, sub);
    pc := Race.PcAfter(s, sub);
    if Race.FindDigest(s.rows, content.digest).None? {
      es := Reads(s, es, sub.(pc := Race.CountingAgent));
      pc := Race.PcAfter(s, sub.(pc := Race.CountingAgent));
      if HasRoomFor(cfg, s.rows, Some(content.agent), s.now) {
        es := Reads(s, es, sub.(pc := Race.CountingAll));
        pc := Race.PcAfter(s, sub.(pc := Race.CountingAll));
      }
    }
  }

  /** Where the insert leaves the machine: a row and a job, a row without a job, or a reused nonce. */
  function Stored(s: Race.State, sub: Race.Sub, queued: bool): Race.State {
    s.(rows := s.rows[sub.id := NewRow(sub.content)], order := s.order + [sub.id],
       jobs := if queued then s.jobs + [sub.id] else s.jobs,
       subs := s.subs + [sub.(pc := if queued then Race.Done(Race.Accepted) else Race.Lost)])
  }

  lemma Inserts(s: Race.State, es: seq<Race.Event>, sub: Race.Sub, queueUp: bool) returns (fs: seq<Race.Event>)
    requires Race.Run(s, es, s.(subs := s.subs + [sub])) && sub.pc.Inserting? && sub.content.createdAt == s.now
    requires CanInsert(s.rows, sub.id, sub.content)
    ensures Race.Run(s, fs, Stored(s, sub, queueUp))
  {
    var t, i := s.(subs := s.subs + [sub]), |s.subs|;
    Race.RunThen(s, es, t, Race.Step(i));
    fs := es + [Race.Step(i)];
    var u := Race.Next(t, Race.Step(i));
    assert u.subs == s.subs + [sub.(pc := Race.Enqueueing)];
    var last := if queueUp then Race.Step(i) else Race.Break(i);
    Race.RunThen(s, fs, u, last);
    fs := fs + [last];
    assert Race.Next(u, last).subs == Stored(s, sub, queueUp).subs;
  }

  /** A second submission of a nonce: the insert is refused, and no row with the digest explains it. */
  lemma Refuses(s: Race.State, es: seq<Race.Event>, sub: Race.Sub) returns (fs: seq<Race.Event>)
    requires Race.Run(s, es, s.(subs := s.subs + [sub])) && sub.pc.Inserting? && sub.content.createdAt == s.now
    requires !CanInsert(s.rows, sub.id, sub.content) && forall j :: !Stores(s.rows, sub.content.digest, j)
    ensures Race.Run(s, fs, s.(subs := s.subs + [sub.(pc := Race.Done(Race.NonceReused))]))
  {
    fs := Reads(s, es, sub);
    fs := Reads(s, fs, sub.(pc := Race.Selecting));
    FindsStored(s.rows, sub.content.digest);
  }

  /**
   * The call as a run of the machine in which one more submission takes part: it ends with the table
   * and the queue of the call, and at the answer of the call. So whatever holds of all runs holds of it.
   */
  lemma CallIsRun(cfg: V2Config, s: Race.State, id: RowId, content: Content, queueUp: bool, r: Reply)
    returns (es: seq<Race.Event>, t: Race.State)
    requires Ready(s, cfg, s.rows, s.jobs, id, s.now) && content.createdAt == s.now
    requires Answered(cfg, s.rows, id, content, s.now, queueUp, r)
    ensures Race.Run(s, es, t) && t.now == s.now && |t.subs| == |s.subs| + 1 && t.subs[..|s.subs|] == s.subs
    ensures t.subs[|s.subs|] == Race.Sub(id, content, s.now, t.subs[|s.subs|].pc) && Tells(t.subs[|s.subs|].pc, id, r)
    ensures t.rows == if Adds(cfg, s.rows, id, content, s.now) then s.rows[id := NewRow(content)] else s.rows
    ensures t.jobs == if Adds(cfg, s.rows, id, content, s.now) && queueUp then s.jobs + [id] else s.jobs
  {
    var pc;
    es, pc := Checks(s, cfg, id, content);
    var sub := Race.Sub(id, content, s.now, pc);
    t := s.(subs := s.subs + [sub]);
    if pc.Inserting? {
      if CanInsert(s.rows, id, content) {
        es := Inserts(s, es, sub, queueUp);
        t := Stored(s, sub, queueUp);
      } else {
        es := Refuses(s, es, sub);
        t := s.(subs := s.subs + [sub.(pc := Race.Done(Race.NonceReused))]);
      }
    }
  }

  /**
   * One submission, start to end. A row is added exactly for an admissible declaration that is new,
   * within both quotas, and whose nonce the agent has not used; it is the row asked for, and it is
   * queued unless the queue is down, when the caller gets an exception but the row stays. A digest
   * already stored is answered with its row and leaves no trace, whatever the quotas say. The call is a
   * run of the machine of racing submissions, and a table within its quotas stays within them.
   */
  method AcceptDeclaration(cfg: V2Config, c: Verifier.Crypto, table: Table, queue: Queue, queueUp: bool,
                           id: RowId, submission: Submission, now: int, ghost s: Race.State)
    returns (r: Reply, ghost es: seq<Race.Event>, ghost t: Race.State)
    requires Ready(s, cfg, table.rows, queue.jobs, id, now)
    modifies table, queue
    ensures Race.Run(s, es, t) && t.rows == table.rows && t.jobs == queue.jobs && t.now == now
    ensures Unique(table.rows) && Keeps(cfg, old(table.rows), table.rows, now)
    ensures !Admissible(cfg, c, submission, now) ==>
      && !r.Replied? && (r.Refused? ==> FirstJustified(cfg, c, submission, now, r.reason))
      && t == s && table.rows == old(table.rows) && queue.jobs == old(queue.jobs)
    ensures r == Refused(AgentQuotaExceeded) ==>
      QuotaUsedUp(cfg, old(table.rows), Some(submission.declaration.agent), now)
    ensures r == Refused(GlobalQuotaExceeded) ==> QuotaUsedUp(cfg, old(table.rows), None, now)
    ensures Admissible(cfg, c, submission, now) ==>
      && Outcome(cfg, old(table.rows), old(queue.jobs), table.rows, queue.jobs, id,
                 ContentOf(cfg, c, submission, now), now, queueUp, r)
      && |t.subs| == |s.subs| + 1 && t.subs[..|s.subs|] == s.subs && Tells(t.subs[|s.subs|].pc, id, r)
  {
    es, t := [], s;
    var problem := CheckSubmission(cfg, c, submission, now);
    if problem.Some? { return problem.value, es, t; }
    var content := ContentOf(cfg, c, submission, now);
    r := StoreContent(cfg, table, queue, queueUp, id, content, now);
    StoringKeeps(cfg, old(table.rows), table.rows, id, content, now, queueUp, r);
    es, t := CallIsRun(cfg, s, id, content, queueUp, r);
  }

  /** The answer, the table and the queue after an admissible submission. */
  ghost predicate Outcome(cfg: V2Config, rows: map<RowId, Row>, jobs: seq<RowId>, rows': map<RowId, Row>,
                          jobs': seq<RowId>, id: RowId, content: Content, now: int, queueUp: bool, r: Reply)
  {
    && Answered(cfg, rows, id, content, now, queueUp, r)
    && if Adds(cfg, rows, id, content, now) then
         rows' == rows[id := NewRow(content)] && jobs' == if queueUp then jobs + [id] else jobs
       else rows' == rows && jobs' == jobs
  }
}
