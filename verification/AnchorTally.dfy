/** Counting calls and anchoring transactions of one row. */
module AnchorTally {
  import opened Outcomes
  import opened Store
  import opened AnchorProtocol
  import opened AnchorSafety

  datatype Measure =
    | Incidents   // lost hashes, failed lookups of an earlier transaction, overlapping claims
    | Chances     // calls that may still send a transaction they have been given room for
    | Claims | Takeovers | Unreleased | Sends

  predicate BeforeSend(pc: Pc) { pc.Looking? || pc.Deciding? || pc.Releasing? }

  predicate Entitled(w: Worker) { !w.knewProof || w.overlapped || w.lookupFailed }

  function Weight(what: Measure, w: Worker): nat {
    match what
    case Incidents => (if w.hashLost then 1 else 0) + (if w.lookupFailed then 1 else 0) + (if w.overlapped then 1 else 0)
    case Chances => if BeforeSend(w.pc) && Entitled(w) then 1 else 0
    case Claims => 1
    case Takeovers => if w.tookOver then 1 else 0
    case Unreleased => if w.released then 0 else 1
    case Sends => if w.sent.Some? then 1 else 0
  }

  function Share(what: Measure, w: Worker, id: RowId): nat { if w.id == id then Weight(what, w) else 0 }

  function Tally(what: Measure, ws: seq<Worker>, id: RowId): nat {
    if ws == [] then 0 else Tally(what, ws[..|ws| - 1], id) + Share(what, ws[|ws| - 1], id)
  }

  lemma {:induction false} TallyUpdate(what: Measure, ws: seq<Worker>, i: nat, w: Worker, id: RowId)
    requires i < |ws|
    ensures Tally(what, ws[i := w], id) == Tally(what, ws, id) - Share(what, ws[i], id) + Share(what, w, id)
  {
    var n := |ws| - 1;
    if i < n {
      TallyUpdate(what, ws[..n], i, w, id);
      assert ws[i := w][..n] == ws[..n][i := w];
    } else {
      assert ws[i := w][..n] == ws[..n];
    }
  }

  lemma TallyAppend(what: Measure, ws: seq<Worker>, w: Worker, id: RowId)
    ensures Tally(what, ws + [w], id) == Tally(what, ws, id) + Share(what, w, id)
  {
    assert (ws + [w])[..|ws|] == ws;
  }

  lemma {:induction false} TallyNone(what: Measure, ws: seq<Worker>, id: RowId)
    requires forall i :: 0 <= i < |ws| ==> ws[i].id != id
    ensures Tally(what, ws, id) == 0
  {
    if ws == [] {
    } else {
      TallyNone(what, ws[..|ws| - 1], id);
    }
  }

  function ProofShare(tx: Tx, id: RowId): nat { if tx.id == id && IsProof(tx) then 1 else 0 }

  /** How many successful transactions sent for row `id` hold the AnchorProof log of its digest. */
  function Proofs(chain: seq<Tx>, id: RowId): nat {
    if chain == [] then 0 else Proofs(chain[..|chain| - 1], id) + ProofShare(chain[|chain| - 1], id)
  }

  lemma ProofsAppend(chain: seq<Tx>, tx: Tx, id: RowId)
    ensures Proofs(chain + [tx], id) == Proofs(chain, id) + ProofShare(tx, id)
  {
    assert (chain + [tx])[..|chain|] == chain;
  }

  lemma {:induction false} ProofsNone(chain: seq<Tx>, id: RowId)
    requires forall t :: 0 <= t < |chain| ==> chain[t].id != id
    ensures Proofs(chain, id) == 0
  {
    if chain == [] {
    } else {
      ProofsNone(chain[..|chain| - 1], id);
    }
  }

  // ---------------------------------------------------------------- what does not concern a row

  /** `t` follows `s` by something that does not concern row `id`. */
  ghost predicate Apart(s: State, t: State, id: RowId) {
    && Extends(s, t) && id in s.rows && t.rows[id] == s.rows[id]
    && |s.workers| <= |t.workers|
    && (forall i :: 0 <= i < |s.workers| && (s.workers[i].id == id || t.workers[i].id == id)
         ==> t.workers[i] == s.workers[i])
    && (forall i :: |s.workers| <= i < |t.workers| ==> t.workers[i].id != id)
    && (forall k :: |s.chain| <= k < |t.chain| ==> t.chain[k].id != id)
  }

  lemma ElsewhereIsApart(s: State, e: Event, id: RowId)
    requires Enabled(s, e) && id in s.rows && Target(s, e) != Some(id)
    ensures Apart(s, Next(s, e), id)
  {
    var t := Next(s, e);
    StepExtends(s, e);
    OthersUntouched(s, e);
    if Actor(e).Some? {
      assert t.workers[Actor(e).value].id == s.workers[Actor(e).value].id;
    }
    forall i | 0 <= i < |s.workers| && (s.workers[i].id == id || t.workers[i].id == id)
      ensures t.workers[i] == s.workers[i]
    {
      assert Actor(e) != Some(i);
    }
  }

  lemma {:induction false} TallyApart(what: Measure, ws: seq<Worker>, vs: seq<Worker>, id: RowId)
    requires |ws| <= |vs|
    requires forall i :: 0 <= i < |ws| && (ws[i].id == id || vs[i].id == id) ==> vs[i] == ws[i]
    requires forall i :: |ws| <= i < |vs| ==> vs[i].id != id
    ensures Tally(what, vs, id) == Tally(what, ws, id)
    decreases |vs|
  {
    if |ws| < |vs| {
      TallyApart(what, ws, vs[..|vs| - 1], id);
    } else if ws != [] {
      TallyApart(what, ws[..|ws| - 1], vs[..|vs| - 1], id);
    }
  }

  lemma {:induction false} ProofsApart(chain: seq<Tx>, longer: seq<Tx>, id: RowId)
    requires |chain| <= |longer| && chain == longer[..|chain|]
    requires forall k :: |chain| <= k < |longer| ==> longer[k].id != id
    ensures Proofs(longer, id) == Proofs(chain, id)
    decreases |longer|
  {
    if |chain| < |longer| {
      ProofsApart(chain, longer[..|longer| - 1], id);
    } else {
      assert longer[..|chain|] == longer;
    }
  }
}
