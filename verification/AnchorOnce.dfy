/**
 * The invariant behind the count of anchors. There is no fencing token and a failed lookup means "send
 * again", so "never twice" does not hold as such; the number of extra anchors is bounded by the
 * number of three kinds of incidents, in every run.
 */
module AnchorOnce {
  import opened Outcomes
  import opened Store
  import opened AnchorProtocol
  import opened AnchorSafety
  import opened AnchorTally

  // ---------------------------------------------------------------- the invariant

  /** How many more proofs the incidents so far leave room for. */
  function Margin(s: State, id: RowId): int {
    1 + Tally(Incidents, s.workers, id) - Proofs(s.chain, id) - Tally(Chances, s.workers, id)
  }

  /** A call that will end up recording a proof, if nothing goes wrong with it. */
  predicate Fresh(s: State, w: Worker) {
    || (BeforeSend(w.pc) && Entitled(w))
    || (w.pc.Recording? && w.pc.tx < |s.chain| && IsProof(s.chain[w.pc.tx]))
  }

  /** With no room left, a retry will find a proof: it is recorded, or is about to be. */
  ghost predicate Secure(s: State, id: RowId) {
    && id in s.rows
    && (forall i :: 0 <= i < |s.workers| && s.workers[i].id == id && s.workers[i].pc.Recording? ==> Fresh(s, s.workers[i]))
    && (|| RecordedProof(s, id)
        || (&& s.rows[id].state.Anchoring? && Busy(s.workers, id)
            && forall i :: 0 <= i < |s.workers| && s.workers[i].id == id && Live(s.workers[i]) ==> Fresh(s, s.workers[i])))
  }

  ghost predicate Counted(s: State, id: RowId) {
    Margin(s, id) >= 0 && (Margin(s, id) == 0 ==> Secure(s, id))
  }

  // ---------------------------------------------------------------- steps that concern other rows

  lemma MarginApart(s: State, t: State, id: RowId)
    requires Apart(s, t, id)
    ensures Margin(t, id) == Margin(s, id)
  {
    TallyApart(Incidents, s.workers, t.workers, id);
    TallyApart(Chances, s.workers, t.workers, id);
    ProofsApart(s.chain, t.chain, id);
  }

  lemma FreshStays(s: State, t: State, w: Worker)
    requires Extends(s, t) && Fresh(s, w)
    ensures Fresh(t, w)
  {
    if w.pc.Recording? && w.pc.tx < |s.chain| {
      assert t.chain[w.pc.tx] == s.chain[w.pc.tx];
    }
  }

  lemma RecordedProofStays(s: State, t: State, id: RowId)
    requires Extends(s, t) && RecordedProof(s, id) && t.rows[id].anchorTxHash == s.rows[id].anchorTxHash
    ensures RecordedProof(t, id)
  {
    var tx := s.rows[id].anchorTxHash.value;
    assert t.chain[tx] == s.chain[tx];
  }

  lemma SecureApart(s: State, t: State, id: RowId)
    requires Apart(s, t, id) && Secure(s, id)
    ensures Secure(t, id)
  {
    forall i | 0 <= i < |t.workers| && t.workers[i].id == id && Fresh(s, t.workers[i])
      ensures Fresh(t, t.workers[i])
    {
      FreshStays(s, t, t.workers[i]);
    }
    if RecordedProof(s, id) {
      RecordedProofStays(s, t, id);
    } else {
      var k :| 0 <= k < |s.workers| && s.workers[k].id == id && Live(s.workers[k]);
      assert t.workers[k] == s.workers[k];
    }
  }

  lemma ElsewhereCounted(s: State, e: Event, id: RowId)
    requires Enabled(s, e) && id in s.rows && Target(s, e) != Some(id) && Counted(s, id)
    ensures Counted(Next(s, e), id)
  {
    ElsewhereIsApart(s, e, id);
    MarginApart(s, Next(s, e), id);
    if Secure(s, id) {
      SecureApart(s, Next(s, e), id);
    }
  }

  // ---------------------------------------------------------------- steps on the row itself

  function Room(w: Worker): int { Weight(Incidents, w) - Weight(Chances, w) }

  /** What a claim adds: one call, fresh on a free row unless it will find the proof that is recorded. */
  lemma ClaimAdds(s: State, e: Event)
    requires Sound(s) && Enabled(s, e) && e.Claim?
    ensures var t, n := Next(s, e), |s.workers|;
      && |t.workers| == n + 1 && t.workers == s.workers + [t.workers[n]] && t.chain == s.chain
      && t.workers[n].id == e.id && Live(t.workers[n]) && BeforeSend(t.workers[n].pc)
      && t.workers[n].overlapped == Busy(s.workers, e.id)
      && t.workers[n].knewProof == RecordedProof(s, e.id)
      && !t.workers[n].hashLost && !t.workers[n].lookupFailed
      && e.id in t.rows && t.rows[e.id].state.Anchoring?
      && t.rows[e.id].anchorTxHash == s.rows[e.id].anchorTxHash
  {
    assert RowTrue(s, e.id);
  }

  lemma ClaimMargin(s: State, e: Event)
    requires Sound(s) && Enabled(s, e) && e.Claim?
    ensures Margin(Next(s, e), e.id) == Margin(s, e.id) + Room(Next(s, e).workers[|s.workers|])
  {
    ClaimAdds(s, e);
    TallyAppend(Incidents, s.workers, Next(s, e).workers[|s.workers|], e.id);
    TallyAppend(Chances, s.workers, Next(s, e).workers[|s.workers|], e.id);
  }

  /** Claiming a busy row is an incident of its own. */
  lemma ClaimBusyCounted(s: State, e: Event)
    requires Sound(s) && Enabled(s, e) && e.Claim? && Counted(s, e.id) && Busy(s.workers, e.id)
    ensures Counted(Next(s, e), e.id)
  {
    var t, id, n := Next(s, e), e.id, |s.workers|;
    ClaimAdds(s, e);
    ClaimMargin(s, e);
    if Margin(t, id) == 0 {
      assert Secure(s, id);
      assert Fresh(t, t.workers[n]);
      forall i | 0 <= i < n ensures t.workers[i] == s.workers[i] && (Fresh(s, s.workers[i]) ==> Fresh(t, s.workers[i])) {
      }
      assert t.workers[n].id == id && Busy(t.workers, id);
    }
  }

  /** Claiming a free row takes up room, unless the call will find the proof that is recorded. */
  lemma ClaimFreeCounted(s: State, e: Event)
    requires Sound(s) && Enabled(s, e) && e.Claim? && Counted(s, e.id) && !Busy(s.workers, e.id)
    ensures Counted(Next(s, e), e.id)
  {
    var t, id, n := Next(s, e), e.id, |s.workers|;
    ClaimAdds(s, e);
    ClaimMargin(s, e);
    forall i | 0 <= i < n && t.workers[i].id == id ensures !Live(t.workers[i]) {
      assert t.workers[i] == s.workers[i];
    }
    if Margin(t, id) == 0 {
      assert t.workers[n].id == id && Busy(t.workers, id);
      assert RecordedProof(s, id) ==> RecordedProof(t, id);
    }
  }

  lemma ClaimCounted(s: State, e: Event)
    requires Sound(s) && Enabled(s, e) && e.Claim? && Counted(s, e.id)
    ensures Counted(Next(s, e), e.id)
  {
    if Busy(s.workers, e.id) {
      ClaimBusyCounted(s, e);
    } else {
      ClaimFreeCounted(s, e);
    }
  }

  lemma AcceptCounted(s: State, e: Event)
    requires Sound(s) && Enabled(s, e) && e.Accept?
    ensures Counted(Next(s, e), e.id)
  {
    forall i | 0 <= i < |s.workers| ensures s.workers[i].id != e.id {
      assert WorkerTrue(s, s.workers[i]);
    }
    forall k | 0 <= k < |s.chain| ensures s.chain[k].id != e.id {
      assert TxTrue(s, s.chain[k]);
    }
    TallyNone(Incidents, s.workers, e.id);
    TallyNone(Chances, s.workers, e.id);
    ProofsNone(s.chain, e.id);
  }

  function Gain(e: Event, t: State): nat {
    if e.Send? && t.chain != [] && IsProof(t.chain[|t.chain| - 1]) then 1 else 0
  }

  /** What one step of a call adds to and takes from the room, seen on that call alone. */
  ghost predicate KeepsRoom(s: State, e: Event)
    requires Enabled(s, e) && Actor(e).Some?
  {
    var t := Next(s, e);
    var w, v := s.workers[Actor(e).value], t.workers[Actor(e).value];
    && v.id == w.id && Room(v) - Gain(e, t) >= Room(w)
    && (Room(v) - Gain(e, t) == Room(w) ==>
         && (Fresh(s, w) ==> Fresh(t, v) || e.Record?)
         && (v.pc.Recording? ==> Fresh(t, v)))
  }

  lemma LookUpKeepsRoom(s: State, e: Event)
    requires Sound(s) && Enabled(s, e) && e.LookUp?
    ensures KeepsRoom(s, e)
  {
    assert WorkerTrue(s, s.workers[e.w]);
    assert TxTrue(s, s.chain[s.workers[e.w].pc.tx]);
  }

  lemma SendKeepsRoom(s: State, e: Event)
    requires Sound(s) && Enabled(s, e) && e.Send?
    ensures KeepsRoom(s, e)
  {
    assert WorkerTrue(s, s.workers[e.w]);
    assert Next(s, e).chain[|s.chain|] == Next(s, e).chain[|Next(s, e).chain| - 1];
  }

  lemma StopKeepsRoom(s: State, e: Event)
    requires Sound(s) && Enabled(s, e) && (e.Throw? || e.Crash?)
    ensures KeepsRoom(s, e)
  {
    assert WorkerTrue(s, s.workers[e.w]);
  }

  /** The steps that only move a call along: past its send, or from one await before it to the next. */
  lemma OthersMoveAlong(s: State, e: Event)
    requires Enabled(s, e) && Actor(e).Some? && !e.LookUp? && !e.Send? && !e.Throw? && !e.Crash?
    ensures var w, v := s.workers[Actor(e).value], Next(s, e).workers[Actor(e).value];
      && v == w.(pc := v.pc, released := v.released) && Next(s, e).chain == s.chain && Entitled(w) == Entitled(v)
      && !v.pc.Recording? && (if e.SeeLowBalance? then BeforeSend(w.pc) && BeforeSend(v.pc) else !BeforeSend(v.pc))
      && (w.pc.Recording? ==> e.Record?)
  {
    match e {
      case SeeLowBalance(_) =>
      case Release(_, _, _) =>
      case Record(_, _) =>
      case Receive(_, _) =>
      case Mark(_, _) =>
      case Fail(_, _) =>
    }
  }

  lemma OthersKeepRoom(s: State, e: Event)
    requires Sound(s) && Enabled(s, e) && Actor(e).Some? && !e.LookUp? && !e.Send? && !e.Throw? && !e.Crash?
    ensures KeepsRoom(s, e)
  {
    OthersMoveAlong(s, e);
  }

  lemma ActorLocal(s: State, e: Event)
    requires Sound(s) && Enabled(s, e) && Actor(e).Some?
    ensures KeepsRoom(s, e)
  {
    if e.LookUp? {
      LookUpKeepsRoom(s, e);
    } else if e.Send? {
      SendKeepsRoom(s, e);
    } else if e.Throw? || e.Crash? {
      StopKeepsRoom(s, e);
    } else {
      OthersKeepRoom(s, e);
    }
  }

  lemma ActorMargin(s: State, e: Event)
    requires Sound(s) && Enabled(s, e) && Actor(e).Some?
    ensures var i, t := Actor(e).value, Next(s, e);
      var id := s.workers[i].id;
      && Margin(t, id) >= Margin(s, id)
      && (Margin(t, id) == Margin(s, id) ==>
           && (Fresh(s, s.workers[i]) ==> Fresh(t, t.workers[i]) || e.Record?)
           && (t.workers[i].pc.Recording? ==> Fresh(t, t.workers[i])))
  {
    var i, t := Actor(e).value, Next(s, e);
    var id := s.workers[i].id;
    ActorLocal(s, e);
    ActorChanges(s, e);
    TallyUpdate(Incidents, s.workers, i, t.workers[i], id);
    TallyUpdate(Chances, s.workers, i, t.workers[i], id);
    if e.Send? {
      ProofsAppend(s.chain, t.chain[|s.chain|], id);
    }
  }

  lemma ActorChanges(s: State, e: Event)
    requires Enabled(s, e) && Actor(e).Some?
    ensures var i, t := Actor(e).value, Next(s, e);
      && t.workers == s.workers[i := t.workers[i]]
      && (if e.Send? then |t.chain| == |s.chain| + 1 && t.chain == s.chain + [t.chain[|s.chain|]]
                          && t.chain[|s.chain|].id == s.workers[i].id
          else t.chain == s.chain)
  {
  }

  lemma ActorCounted(s: State, e: Event)
    requires Sound(s) && Enabled(s, e) && Actor(e).Some? && Counted(s, s.workers[Actor(e).value].id)
    ensures Counted(Next(s, e), s.workers[Actor(e).value].id)
  {
    var i, t := Actor(e).value, Next(s, e);
    var id := s.workers[i].id;
    ActorMargin(s, e);
    if Margin(t, id) == 0 {
      ActorSecure(s, e, i, id, t);
    }
  }

  /** What a step of a call does to the hash and the state of its row. */
  lemma ActorOnRow(s: State, e: Event)
    requires Enabled(s, e) && Actor(e).Some?
    ensures var w, t := s.workers[Actor(e).value], Next(s, e);
      || (s.rows[w.id].state.Anchoring? && (e.Record? || e.Mark?) && t.rows[w.id].anchorTxHash == Some(w.pc.tx))
      || (t.rows[w.id] == s.rows[w.id] && (e.Record? || e.Mark? ==> !s.rows[w.id].state.Anchoring?))
      || ((e.Release? || e.Fail?) && !Fresh(t, t.workers[Actor(e).value])
          && t.rows[w.id].anchorTxHash == s.rows[w.id].anchorTxHash)
  {
    var i, t := Actor(e).value, Next(s, e);
    assert t.rows[s.workers[i].id] == RowAfter(s, e) && t.workers[i] == WorkerAfter(s, e);
  }

  /** The calls beside the acting one stay as fresh as they were. */
  lemma OthersStayFresh(s: State, e: Event, j: nat)
    requires Enabled(s, e) && Actor(e).Some? && j < |s.workers| && j != Actor(e).value
    ensures Next(s, e).workers[j] == s.workers[j]
    ensures Fresh(s, s.workers[j]) ==> Fresh(Next(s, e), s.workers[j])
  {
    ActorChanges(s, e);
    StepExtends(s, e);
    if Fresh(s, s.workers[j]) {
      FreshStays(s, Next(s, e), s.workers[j]);
    }
  }

  lemma ActorRecords(s: State, e: Event)
    requires Sound(s) && Enabled(s, e) && Actor(e).Some? && (e.Record? || e.Mark?)
    requires s.rows[s.workers[Actor(e).value].id].state.Anchoring?
    requires e.Record? ==> Fresh(s, s.workers[e.w])
    ensures RecordedProof(Next(s, e), s.workers[Actor(e).value].id)
  {
    var w := s.workers[Actor(e).value];
    ActorChanges(s, e);
    ActorOnRow(s, e);
    assert WorkerTrue(s, w);
    assert TxTrue(s, s.chain[w.pc.tx]);
  }

  /** Unless a proof is recorded, the step leaves the row in place and a fresh call fresh. */
  lemma ActorKeeps(s: State, e: Event)
    requires Sound(s) && Enabled(s, e) && Actor(e).Some?
    requires var id := s.workers[Actor(e).value].id; Margin(Next(s, e), id) == Margin(s, id) && Secure(s, id)
    ensures var w, t := s.workers[Actor(e).value], Next(s, e);
      || RecordedProof(t, w.id)
      || (&& !RecordedProof(s, w.id)
          && (Fresh(s, w) ==> Fresh(t, t.workers[Actor(e).value]) && t.rows[w.id].state == s.rows[w.id].state))
  {
    var w, t := s.workers[Actor(e).value], Next(s, e);
    ActorMargin(s, e);
    ActorOnRow(s, e);
    if s.rows[w.id].state.Anchoring? && (e.Record? || e.Mark?) {
      ActorRecords(s, e);
    } else if RecordedProof(s, w.id) {
      StepExtends(s, e);
      RecordedProofStays(s, t, w.id);
    }
  }

  lemma ActorSecure(s: State, e: Event, i: nat, id: RowId, t: State)
    requires Sound(s) && Enabled(s, e) && Actor(e) == Some(i) && id == s.workers[i].id && t == Next(s, e)
    requires Margin(t, id) == Margin(s, id) && Secure(s, id)
    ensures Secure(t, id)
  {
    ActorMargin(s, e);
    ActorChanges(s, e);
    ActorKeeps(s, e);
    ActorLocal(s, e);
    assert forall j :: 0 <= j < |s.workers| && j != i && Fresh(s, s.workers[j]) ==> Fresh(t, s.workers[j]) by {
      forall j | 0 <= j < |s.workers| && j != i && Fresh(s, s.workers[j]) ensures Fresh(t, s.workers[j]) {
        OthersStayFresh(s, e, j);
      }
    }
    var v := t.workers[i];
    assert v.id == id && Live(s.workers[i]);
    assert v.pc.Recording? ==> Fresh(t, v);
    assert id in t.rows;
    SecureFrom(s, t, i, v, id);
  }

  lemma SecureFrom(s: State, t: State, i: nat, v: Worker, id: RowId)
    requires i < |s.workers| && s.workers[i].id == id && v.id == id && Live(s.workers[i])
    requires t.workers == s.workers[i := v]
    requires forall j :: 0 <= j < |s.workers| && j != i && Fresh(s, s.workers[j]) ==> Fresh(t, s.workers[j])
    requires id in t.rows && Secure(s, id)
    requires v.pc.Recording? ==> Fresh(t, v)
    requires || RecordedProof(t, id)
             || (&& !RecordedProof(s, id)
                 && (Fresh(s, s.workers[i]) ==> Fresh(t, v) && t.rows[id].state == s.rows[id].state))
    ensures Secure(t, id)
  {
    forall j | 0 <= j < |t.workers| && t.workers[j].id == id && t.workers[j].pc.Recording?
      ensures Fresh(t, t.workers[j])
    {
      if j != i { assert t.workers[j] == s.workers[j]; }
    }
    if !RecordedProof(t, id) {
      assert Fresh(t, v);
      forall j | 0 <= j < |t.workers| && t.workers[j].id == id && Live(t.workers[j])
        ensures Fresh(t, t.workers[j])
      {
        if j != i { assert t.workers[j] == s.workers[j]; }
      }
      assert t.workers[i] == v && Live(v);
      assert Busy(t.workers, id);
    }
  }

  ghost predicate AllCounted(s: State) { forall id :: id in s.rows ==> Counted(s, id) }

  lemma StepCounted(s: State, e: Event)
    requires Sound(s) && Enabled(s, e) && AllCounted(s)
    ensures AllCounted(Next(s, e))
  {
    forall id | id in Next(s, e).rows ensures Counted(Next(s, e), id) {
      if Target(s, e) != Some(id) {
        ElsewhereCounted(s, e, id);
      } else if e.Claim? {
        ClaimCounted(s, e);
      } else if e.Accept? {
        AcceptCounted(s, e);
      } else {
        ActorCounted(s, e);
      }
    }
  }
}
