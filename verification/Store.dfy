/** The declarations table: its rows, and the SQL statements that read and change them. Times are in milliseconds. */
module Store {
  import opened Bytes
  import opened Outcomes
  import opened Json
  import opened Submissions

  type RowId = nat
  /** A transaction is named by its position among all transactions sent. */
  type TxHash = nat

  /** What a row stores about the declaration itself. No statement changes it. */
  datatype Content = Content(
    digest: Bytes, agent: Bytes, nonce: Bytes, contentHash: Bytes, declaration: Submitted, signature: Bytes,
    metadata: Option<Members>,
    chainId: nat, contract: Bytes, agentIdScheme: int, agentId: Bytes,
    createdAt: int)

  datatype RowState = Pending | Anchoring | Anchored | Failed

  /** Where an AnchorProof log was found. */
  datatype Found = Found(logIndex: nat, block: nat, blockTime: int)

  datatype Row = Row(
    content: Content, state: RowState, attempts: int, leaseUntil: Option<int>, lastError: Option<string>,
    anchorTxHash: Option<TxHash>, anchor: Option<Found>, anchoredAt: Option<int>)

  function NewRow(content: Content): Row {
    Row(content, Pending, 0, None, None, None, None, None)
  }

  predicate Terminal(row: Row) { row.state.Anchored? || row.state.Failed? }

  /** The guard shared by the claim and the reconciler; a missing lease compares as unknown. */
  predicate Claimable(row: Row, now: int) {
    || row.state.Pending?
    || (row.state.Anchoring? && row.leaseUntil.Some? && row.leaseUntil.value < now)
  }

  // ---------------------------------------------------------------- the effect of each statement on its row

  function Claimed(row: Row, now: int, leaseSeconds: nat): Row {
    row.(state := Anchoring, leaseUntil := Some(now + 1000 * leaseSeconds), attempts := row.attempts + 1)
  }

  function WithSentTx(row: Row, tx: TxHash): Row {
    if row.state.Anchoring? then row.(anchorTxHash := Some(tx)) else row
  }

  function WithAnchor(row: Row, tx: TxHash, found: Found, now: int): Row {
    if row.state.Anchoring? then
      row.(state := Anchored, anchorTxHash := Some(tx), anchor := Some(found), anchoredAt := Some(now),
           leaseUntil := None, lastError := None)
    else row
  }

  function WithFailure(row: Row, error: string, maxAttempts: int): Row {
    if row.state.Anchoring? then
      row.(state := if row.attempts >= maxAttempts then Failed else Pending,
           lastError := Some(Slice500(error)), leaseUntil := None)
    else row
  }

  function WithRelease(row: Row, reason: string): Row {
    if row.state.Anchoring? then
      row.(state := Pending, leaseUntil := None, lastError := Some(Slice500(reason)),
           attempts := if row.attempts - 1 > 0 then row.attempts - 1 else 0)
    else row
  }

  /** The first 500 characters, or all of them. */
  predicate Shortened(s: string, r: string) { r <= s && |r| <= 500 && (|r| < 500 ==> r == s) }

  function Slice500(s: string): string { if |s| > 500 then s[..500] else s }

  // ---------------------------------------------------------------- uniqueness and counting

  predicate Conflicts(a: Content, b: Content) {
    a.digest == b.digest || (a.agent == b.agent && a.nonce == b.nonce)
  }

  /** The two unique constraints of the table. */
  ghost predicate Unique(rows: map<RowId, Row>) {
    forall i, j :: i in rows && j in rows && i != j ==> !Conflicts(rows[i].content, rows[j].content)
  }

  predicate CanInsert(rows: map<RowId, Row>, id: RowId, content: Content) {
    id !in rows && forall i :: i in rows ==> !Conflicts(rows[i].content, content)
  }

  /** The rows a count selects: created at or after `since`, and of one agent when one is given. */
  function Since(rows: map<RowId, Row>, since: int, agent: Option<Bytes>): (r: set<RowId>)
    ensures forall i :: i in r <==>
      i in rows && rows[i].content.createdAt >= since && (agent.Some? ==> rows[i].content.agent == agent.value)
  {
    set i | i in rows && rows[i].content.createdAt >= since && OfAgent(rows[i].content, agent)
  }

  /** The rows of an agent, or of all, created in a closed interval. */
  function CreatedIn(rows: map<RowId, Row>, lo: int, hi: int, agent: Option<Bytes>): (r: set<RowId>)
    ensures forall i :: i in r <==>
      i in rows && lo <= rows[i].content.createdAt <= hi && (agent.Some? ==> rows[i].content.agent == agent.value)
  {
    set i | i in rows && lo <= rows[i].content.createdAt <= hi && OfAgent(rows[i].content, agent)
  }

  predicate OfAgent(content: Content, agent: Option<Bytes>) { agent.None? || content.agent == agent.value }

  datatype InsertOutcome = Created(id: RowId) | Duplicate(id: RowId) | NonceConflict

  class Table {
    var rows: map<RowId, Row>

    /**
     * Insert, or report the row with the same digest. A conflict that no row with this digest
     * explains is a reused nonce.
     */
    method InsertDeclaration(id: RowId, content: Content) returns (outcome: InsertOutcome)
      requires Unique(rows)
      modifies this
      ensures Unique(rows)
      ensures outcome.Created? <==> CanInsert(old(rows), id, content)
      ensures outcome.Created? ==> outcome.id == id && rows == old(rows)[id := NewRow(content)]
      ensures !outcome.Created? ==> rows == old(rows)
      ensures outcome.Duplicate? ==> outcome.id in rows && rows[outcome.id].content.digest == content.digest
      ensures outcome.NonceConflict? ==> forall i :: i in rows ==> rows[i].content.digest != content.digest
    {
      if CanInsert(rows, id, content) {
        rows := rows[id := NewRow(content)];
        return Created(id);
      }
      var same := GetByDigest(content.digest);
      match same
      case Some(i) => return Duplicate(i);
      case None => return NonceConflict;
    }

    method GetByDigest(digest: Bytes) returns (found: Option<RowId>)
      ensures found.Some? ==> found.value in rows && rows[found.value].content.digest == digest
      ensures found.None? ==> forall i :: i in rows ==> rows[i].content.digest != digest
    {
      if i :| i in rows && rows[i].content.digest == digest {
        return Some(i);
      }
      return None;
    }

    method CountSince(since: int, agent: Option<Bytes>) returns (n: nat)
      ensures n == |Since(rows, since, agent)|
    {
      var chosen := if agent.Some? then set i | i in rows && rows[i].content.agent == agent.value else rows.Keys;
      var recent := set i | i in chosen && rows[i].content.createdAt >= since;
      assert recent == Since(rows, since, agent);
      return |recent|;
    }

    /** The atomic claim: it takes exactly the claimable rows, and changes only the row it takes. */
    method ClaimForAnchoring(id: RowId, leaseSeconds: nat, now: int) returns (row: Option<Row>)
      modifies this
      ensures row.Some? <==> id in old(rows) && Claimable(old(rows)[id], now)
      ensures row.Some? ==> row.value == Claimed(old(rows)[id], now, leaseSeconds)
      ensures rows == if row.Some? then old(rows)[id := row.value] else old(rows)
      ensures row.Some? ==> !Claimable(rows[id], now)
      ensures row.Some? ==>
        && row.value.state.Anchoring? && row.value.leaseUntil == Some(now + 1000 * leaseSeconds)
        && row.value.attempts == old(rows)[id].attempts + 1
        && row.value.(state := old(rows)[id].state, leaseUntil := old(rows)[id].leaseUntil,
                      attempts := old(rows)[id].attempts) == old(rows)[id]
    {
      if id in rows && Claimable(rows[id], now) {
        rows := rows[id := Claimed(rows[id], now, leaseSeconds)];
        return Some(rows[id]);
      }
      return None;
    }

    method RecordSentTx(id: RowId, tx: TxHash)
      modifies this
      ensures rows == if id in old(rows) then old(rows)[id := WithSentTx(old(rows)[id], tx)] else old(rows)
      ensures id in old(rows) && old(rows)[id].state.Anchoring? ==>
        rows[id].anchorTxHash == Some(tx) && rows[id].(anchorTxHash := old(rows)[id].anchorTxHash) == old(rows)[id]
      ensures id in old(rows) && !old(rows)[id].state.Anchoring? ==> rows[id] == old(rows)[id]
    {
      if id in rows && rows[id].state.Anchoring? {
        rows := rows[id := rows[id].(anchorTxHash := Some(tx))];
      }
    }

    method MarkAnchored(id: RowId, tx: TxHash, found: Found, now: int) returns (done: bool)
      modifies this
      ensures rows == if id in old(rows) then old(rows)[id := WithAnchor(old(rows)[id], tx, found, now)]
                      else old(rows)
      ensures done <==> id in old(rows) && old(rows)[id].state.Anchoring?
      ensures done ==>
        && rows[id].state.Anchored? && rows[id].anchorTxHash == Some(tx) && rows[id].anchor == Some(found)
        && rows[id].anchoredAt == Some(now) && rows[id].leaseUntil.None? && rows[id].lastError.None?
        && rows[id].attempts == old(rows)[id].attempts && rows[id].content == old(rows)[id].content
    {
      done := id in rows && rows[id].state.Anchoring?;
      if done {
        rows := rows[id := WithAnchor(rows[id], tx, found, now)];
      }
    }

    method MarkAttemptFailed(id: RowId, error: string, maxAttempts: int) returns (state: Option<RowState>)
      modifies this
      ensures rows == if id in old(rows) then old(rows)[id := WithFailure(old(rows)[id], error, maxAttempts)]
                      else old(rows)
      ensures state == if id in old(rows) && old(rows)[id].state.Anchoring? then Some(rows[id].state) else None
      ensures state.Some? ==>
        && (rows[id].state.Failed? <==> old(rows)[id].attempts >= maxAttempts)
        && (rows[id].state.Pending? <==> old(rows)[id].attempts < maxAttempts)
        && rows[id].attempts == old(rows)[id].attempts && rows[id].anchorTxHash == old(rows)[id].anchorTxHash
        && rows[id].leaseUntil.None? && rows[id].content == old(rows)[id].content
        && rows[id].lastError.Some? && Shortened(error, rows[id].lastError.value)
    {
      if id in rows && rows[id].state.Anchoring? {
        rows := rows[id := WithFailure(rows[id], error, maxAttempts)];
        return Some(rows[id].state);
      }
      return None;
    }

    method ReleaseClaim(id: RowId, reason: string)
      modifies this
      ensures rows == if id in old(rows) then old(rows)[id := WithRelease(old(rows)[id], reason)] else old(rows)
      ensures id in old(rows) && old(rows)[id].state.Anchoring? ==>
        && rows[id].state.Pending? && rows[id].leaseUntil.None? && rows[id].content == old(rows)[id].content
        && rows[id].anchorTxHash == old(rows)[id].anchorTxHash && rows[id].attempts >= 0
        && (old(rows)[id].attempts >= 1 ==> rows[id].attempts == old(rows)[id].attempts - 1)
        && rows[id].lastError.Some? && Shortened(reason, rows[id].lastError.value)
    {
      if id in rows && rows[id].state.Anchoring? {
        rows := rows[id := WithRelease(rows[id], reason)];
      }
    }

    /** At most `limit` rows, each once; all that a claim would take now when there is room for them. */
    method ListToReconcile(limit: nat, now: int) returns (ids: seq<RowId>)
      ensures |ids| <= limit
      ensures forall i :: i in ids ==> i in rows && Claimable(rows[i], now)
      ensures forall j, k :: 0 <= j < k < |ids| ==> ids[j] != ids[k]
      ensures |ids| < limit ==> forall i :: i in rows && Claimable(rows[i], now) ==> i in ids
    {
      ids := [];
      var left := set i | i in rows && Claimable(rows[i], now);
      while left != {} && |ids| < limit
        invariant |ids| <= limit
        invariant forall i :: i in left ==> i in rows && Claimable(rows[i], now) && i !in ids
        invariant forall i :: i in ids ==> i in rows && Claimable(rows[i], now)
        invariant forall j, k :: 0 <= j < k < |ids| ==> ids[j] != ids[k]
        invariant forall i :: i in rows && Claimable(rows[i], now) ==> i in ids || i in left
        decreases |left|
      {
        var i :| i in left;
        ids := ids + [i];
        left := left - {i};
      }
    }
  }

  /** Giving a fresh claim back leaves the row as it was, apart from the reason noted. */
  lemma ReleaseUndoesClaim(row: Row, now: int, leaseSeconds: nat, reason: string)
    requires row.state.Pending? && row.leaseUntil.None? && row.attempts >= 0
    ensures WithRelease(Claimed(row, now, leaseSeconds), reason) == row.(lastError := Some(Slice500(reason)))
  {
  }

  /** Outside the accepted conflict, the table stays unique under insertion. */
  lemma InsertKeepsUnique(rows: map<RowId, Row>, id: RowId, content: Content)
    requires Unique(rows)
    ensures Unique(rows[id := NewRow(content)]) <==> CanInsert(rows - {id}, id, content)
  {
    var next := rows[id := NewRow(content)];
    if CanInsert(rows - {id}, id, content) {
      forall i, j | i in next && j in next && i != j ensures !Conflicts(next[i].content, next[j].content) {
        if i != id && j != id {
        } else if i == id {
          assert j in rows - {id};
        } else {
          assert i in rows - {id};
        }
      }
    } else {
      var i :| i in rows - {id} && Conflicts((rows - {id})[i].content, content);
      assert next[i] == rows[i] && next[id].content == content;
    }
  }
}
