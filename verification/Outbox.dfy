/** Draining notification email (`mail/outbox.py`, the claim and the mark in `repositories/notification.py`).
    Times are seconds on one clock. */
module Outbox {
  import opened Prelude

  type RowId = nat
  type ReplicaId = nat

  const CLAIM_BATCH: nat := 50
  const CLAIM_LEASE: nat := 900
  const SEND_TIMEOUT: nat := 10
  const MAX_EMAIL_ATTEMPTS: nat := 5
  const STALE_AFTER: nat := 86400

  datatype EmailState = Pending | Sent | Failed | Skipped

  /** `queued` is when the row was written and `created` when its event was. */
  datatype Row = Row(state: EmailState, claimedUntil: Option<nat>, attempts: nat, queued: nat, created: nat,
      deactivated: bool)

  /** What composing and sending came to; `Raised` stands for every exception but `MailSendError`. */
  datatype Relay = Accepted | Refused(retryable: bool) | Raised

  predicate Claimable(row: Row, now: nat) {
    row.state.Pending? && (row.claimedUntil.None? || row.claimedUntil.value < now)
  }

  function Claimed(row: Row, now: nat, lease: nat): Row {
    row.(claimedUntil := Some(now + lease), attempts := row.attempts + 1)
  }

  /** `mark_email`, guarded on the row still being pending. */
  function Marked(row: Row, state: EmailState): Row {
    if row.state.Pending? then row.(state := state, claimedUntil := None) else row
  }

  /** `_deliver`, with the caller's `except`: `None` leaves the row pending. */
  function Deliver(row: Row, now: nat, relay: Relay): Option<EmailState> {
    if row.deactivated || now > row.created + STALE_AFTER then Some(Skipped)
    else
      match relay
      case Accepted => Some(Sent)
      case Raised => Some(Failed)
      case Refused(retryable) => if retryable && row.attempts < MAX_EMAIL_ATTEMPTS then None else Some(Failed)
  }

  function Recorded(row: Row, outcome: Option<EmailState>): Row {
    if outcome.None? then row else Marked(row, outcome.value)
  }

  function AfterPass(row: Row, now: nat, relay: Relay): Row {
    Recorded(row, Deliver(row, now, relay))
  }

  /** A row whose pass completes leaves `pending`, except after a retryable refusal with attempts to
      spare; the attempt being made counts, so the fifth completed pass is always the last. */
  lemma CompletedPassLeavesPending(row: Row, claimedAt: nat, lease: nat, now: nat, relay: Relay)
    requires Claimable(row, claimedAt)
    ensures var after := AfterPass(Claimed(row, claimedAt, lease), now, relay);
            && (after.state.Pending? <==> !row.deactivated && now <= row.created + STALE_AFTER
                                            && relay == Refused(true) && row.attempts + 1 < MAX_EMAIL_ATTEMPTS)
            && (row.attempts >= MAX_EMAIL_ATTEMPTS - 1 ==> !after.state.Pending?)
            && (after.state.Sent? <==> !row.deactivated && now <= row.created + STALE_AFTER && relay.Accepted?)
            && (after.state.Skipped? <==> row.deactivated || now > row.created + STALE_AFTER)
            && (after.state.Pending? ==> after == Claimed(row, claimedAt, lease))
  {
  }

  /** What a pass may make of a row: nobody to send to any more, or an event more than a day old, is skipped; a
      mail the relay took is sent; a refusal worth repeating leaves the row pending under its lease, unless
      this was the fifth attempt; anything else has failed. */
  predicate IsOutcome(before: Row, after: Row, claimedAt: nat, now: nat, relay: Relay) {
    var state := if before.deactivated || now > before.created + 86400 then Skipped
                 else if relay.Accepted? then Sent
                 else if relay == Refused(true) && before.attempts + 1 < 5 then Pending
                 else Failed;
    after == Row(state, if state.Pending? then Some(claimedAt + 900) else None, before.attempts + 1, before.queued,
                 before.created, before.deactivated)
  }

  lemma PassIsOutcome(row: Row, claimedAt: nat, now: nat, relay: Relay)
    requires row.state.Pending?
    ensures IsOutcome(row, AfterPass(Claimed(row, claimedAt, CLAIM_LEASE), now, relay), claimedAt, now, relay)
  {
  }

  // ----- One drain pass -----

  predicate Candidate(rows: map<RowId, Row>, id: RowId, now: nat, locked: set<RowId>) {
    id in rows && Claimable(rows[id], now) && id !in locked
  }

  /** What the claim's SELECT may return: claimable rows that are not locked, each once, no more than the
      limit; a candidate is left out only when the limit is met, and by nothing younger. */
  ghost predicate IsPick(rows: map<RowId, Row>, now: nat, locked: set<RowId>, limit: nat, picked: seq<RowId>) {
    && Distinct(picked) && |picked| <= limit
    && (forall id :: id in picked ==> Candidate(rows, id, now, locked))
    && (forall id :: Candidate(rows, id, now, locked) && id !in picked ==>
          |picked| == limit && forall other :: other in picked ==> rows[other].queued <= rows[id].queued)
  }

  class Notifications {
    var rows: map<RowId, Row>

    constructor (rows: map<RowId, Row>)
      ensures this.rows == rows
    {
      this.rows := rows;
    }

    method ClaimPendingEmail(now: nat, lease: nat, limit: nat, ghost locked: set<RowId>, picked: seq<RowId>)
      requires IsPick(rows, now, locked, limit, picked)
      modifies this
      ensures rows == AllClaimed(old(rows), picked, now, lease)
    {
      rows := map id | id in rows :: if id in picked then Claimed(rows[id], now, lease) else rows[id];
    }

    method MarkEmail(id: RowId, state: EmailState)
      modifies this
      ensures rows == if id in old(rows) then old(rows)[id := Marked(old(rows)[id], state)] else old(rows)
    {
      if id in rows && rows[id].state.Pending? {
        rows := rows[id := rows[id].(state := state, claimedUntil := None)];
      }
    }
  }

  datatype Turn = Turn(now: nat, relay: Relay)

  /** A row after the pass that picked it in the `i`-th place. */
  function Passed(row: Row, now: nat, turn: Turn): Row {
    AfterPass(Claimed(row, now, CLAIM_LEASE), turn.now, turn.relay)
  }

  function SentCount(before: map<RowId, Row>, now: nat, picked: seq<RowId>, turns: seq<Turn>): nat
    requires |turns| == |picked| && forall id :: id in picked ==> id in before
  {
    if picked == [] then 0
    else
      var n := |picked| - 1;
      SentCount(before, now, picked[..n], turns[..n])
      + (if Passed(before[picked[n]], now, turns[n]).state.Sent? then 1 else 0)
  }

  lemma SentCountSnoc(before: map<RowId, Row>, now: nat, picked: seq<RowId>, turns: seq<Turn>, i: nat)
    requires i < |picked| && |turns| == |picked| && forall id :: id in picked ==> id in before
    ensures SentCount(before, now, picked[..i + 1], turns[..i + 1])
         == SentCount(before, now, picked[..i], turns[..i])
             + (if Passed(before[picked[i]], now, turns[i]).state.Sent? then 1 else 0)
  {
    assert picked[..i + 1][..i] == picked[..i] && turns[..i + 1][..i] == turns[..i];
  }

  /** What a drain finds of a row it picked: it is claimed and still pending, so its outcome is recorded. */
  lemma PickedIsPending(before: map<RowId, Row>, now: nat, locked: set<RowId>, picked: seq<RowId>, turns: seq<Turn>,
      i: nat)
    requires IsPick(before, now, locked, CLAIM_BATCH, picked) && |turns| == |picked| && i < |picked|
    ensures picked[i] in before && picked[i] !in picked[..i] && before[picked[i]].state.Pending?
    ensures Passed(before[picked[i]], now, turns[i]).state.Sent?
       <==> Deliver(Claimed(before[picked[i]], now, CLAIM_LEASE), turns[i].now, turns[i].relay) == Some(Sent)
  {
    assert picked[i] in picked && Candidate(before, picked[i], now, locked);
  }

  function AllClaimed(rows: map<RowId, Row>, picked: seq<RowId>, now: nat, lease: nat): map<RowId, Row> {
    map id | id in rows :: if id in picked then Claimed(rows[id], now, lease) else rows[id]
  }

  /** The table once the first `|done|` rows picked have had their pass. */
  function Drained(before: map<RowId, Row>, now: nat, picked: seq<RowId>, done: seq<RowId>,
      turns: seq<Turn>): map<RowId, Row>
    requires |turns| == |done| && forall id :: id in done ==> id in before
  {
    if done == [] then AllClaimed(before, picked, now, CLAIM_LEASE)
    else
      var n := |done| - 1;
      Drained(before, now, picked, done[..n], turns[..n])[done[n] := Passed(before[done[n]], now, turns[n])]
  }

  /** Every row that was picked has its own pass behind it, and no other row has moved. */
  lemma {:induction false} DrainedIsOnePassEach(before: map<RowId, Row>, now: nat, picked: seq<RowId>,
      done: seq<RowId>, turns: seq<Turn>, id: RowId)
    requires |turns| == |done| && Distinct(done) && (forall k :: k in done ==> k in before) && id in before
    ensures var after := Drained(before, now, picked, done, turns);
            && after.Keys == before.Keys
            && (forall i :: 0 <= i < |done| && done[i] == id ==> after[id] == Passed(before[id], now, turns[i]))
            && (id !in done && id in picked ==> after[id] == Claimed(before[id], now, CLAIM_LEASE))
            && (id !in done && id !in picked ==> after[id] == before[id])
    decreases |done|
  {
    if done != [] {
      var n := |done| - 1;
      DrainedIsOnePassEach(before, now, picked, done[..n], turns[..n], id);
      assert id in done <==> id in done[..n] || id == done[n];
    }
  }

  lemma DrainedSnoc(before: map<RowId, Row>, now: nat, locked: set<RowId>, picked: seq<RowId>, turns: seq<Turn>, i: nat)
    requires IsPick(before, now, locked, CLAIM_BATCH, picked) && |turns| == |picked| && i < |picked|
    requires forall id :: id in picked ==> id in before
    ensures var table := Drained(before, now, picked, picked[..i], turns[..i]);
            && picked[i] in table && table[picked[i]] == Claimed(before[picked[i]], now, CLAIM_LEASE)
            && table[picked[i] := Passed(before[picked[i]], now, turns[i])] ==
               Drained(before, now, picked, picked[..i + 1], turns[..i + 1])
  {
    PickedIsPending(before, now, locked, picked, turns, i);
    DrainedIsOnePassEach(before, now, picked, picked[..i], turns[..i], picked[i]);
    assert picked[..i + 1][..i] == picked[..i] && turns[..i + 1][..i] == turns[..i];
  }

  /** `send_pending_once`: claim, then deliver and mark row by row; the count is of the emails handed to
      the relay. `turns` are the clock and the relay's answer for each row. */
  method SendPendingOnce(table: Notifications, now: nat, ghost locked: set<RowId>, picked: seq<RowId>, turns: seq<Turn>)
    returns (sent: nat)
    requires IsPick(table.rows, now, locked, CLAIM_BATCH, picked) && |turns| == |picked|
    requires forall id :: id in picked ==> id in table.rows
    modifies table
    ensures table.rows == Drained(old(table.rows), now, picked, picked, turns)
    ensures sent == SentCount(old(table.rows), now, picked, turns)
    // row by row: each picked one has its outcome, no other has moved, and the count is of those sent
    ensures table.rows.Keys == old(table.rows).Keys
    ensures forall i :: 0 <= i < |picked| ==>
              IsOutcome(old(table.rows)[picked[i]], table.rows[picked[i]], now, turns[i].now, turns[i].relay)
    ensures forall id :: id in table.rows && id !in picked ==> table.rows[id] == old(table.rows)[id]
    ensures sent == |SentAmong(table.rows, picked)|
  {
    ghost var before := table.rows;
    table.ClaimPendingEmail(now, CLAIM_LEASE, CLAIM_BATCH, locked, picked);
    sent := 0;
    for i := 0 to |picked|
      invariant table.rows == Drained(before, now, picked, picked[..i], turns[..i])
      invariant sent == SentCount(before, now, picked[..i], turns[..i])
    {
      var id := picked[i];
      PickedIsPending(before, now, locked, picked, turns, i);
      SentCountSnoc(before, now, picked, turns, i);
      DrainedSnoc(before, now, locked, picked, turns, i);
      var outcome := Deliver(table.rows[id], turns[i].now, turns[i].relay);
      if outcome.None? {
        // no state is written: the next pass is for whoever claims the row once this lease is past
        continue;
      }
      table.MarkEmail(id, outcome.value);
      if outcome.value.Sent? {
        sent := sent + 1;
      }
    }
    assert picked[..|picked|] == picked && turns[..|turns|] == turns;
    forall id | id in before
      ensures id in table.rows && (id !in picked ==> table.rows[id] == before[id])
      ensures forall i :: 0 <= i < |picked| && picked[i] == id ==>
                table.rows[id] == Passed(before[id], now, turns[i])
    {
      DrainedIsOnePassEach(before, now, picked, picked, turns, id);
    }
    assert table.rows.Keys == before.Keys by {
      DrainedKeepsKeys(before, now, picked, picked, turns);
    }
    forall i | 0 <= i < |picked|
      ensures IsOutcome(before[picked[i]], table.rows[picked[i]], now, turns[i].now, turns[i].relay)
    {
      PickedIsPending(before, now, locked, picked, turns, i);
      PassIsOutcome(before[picked[i]], now, turns[i].now, turns[i].relay);
    }
    SentCountIsTheSet(before, now, picked, turns, table.rows);
  }

  function SentAmong(rows: map<RowId, Row>, picked: seq<RowId>): set<nat> {
    set i: nat | i < |picked| && picked[i] in rows && rows[picked[i]].state.Sent?
  }

  lemma {:induction false} DrainedKeepsKeys(before: map<RowId, Row>, now: nat, picked: seq<RowId>, done: seq<RowId>,
      turns: seq<Turn>)
    requires |turns| == |done| && forall id :: id in done ==> id in before
    ensures Drained(before, now, picked, done, turns).Keys == before.Keys
    decreases |done|
  {
    if done != [] {
      var n := |done| - 1;
      DrainedKeepsKeys(before, now, picked, done[..n], turns[..n]);
      assert done[n] in done;
    }
  }

  lemma SentAmongSnoc(rows: map<RowId, Row>, picked: seq<RowId>)
    requires picked != [] && picked[|picked| - 1] in rows
    ensures |SentAmong(rows, picked)| ==
            |SentAmong(rows, picked[..|picked| - 1])| + (if rows[picked[|picked| - 1]].state.Sent? then 1 else 0)
  {
    var n := |picked| - 1;
    assert SentAmong(rows, picked) ==
           SentAmong(rows, picked[..n]) + (if rows[picked[n]].state.Sent? then {n} else {});
  }

  lemma {:induction false} SentCountIsTheSet(before: map<RowId, Row>, now: nat, picked: seq<RowId>, turns: seq<Turn>,
      after: map<RowId, Row>)
    requires |turns| == |picked| && forall id :: id in picked ==> id in before
    requires forall i :: 0 <= i < |picked| ==>
               picked[i] in after && after[picked[i]] == Passed(before[picked[i]], now, turns[i])
    ensures SentCount(before, now, picked, turns) == |SentAmong(after, picked)|
    decreases |picked|
  {
    if picked != [] {
      var n := |picked| - 1;
      SentCountIsTheSet(before, now, picked[..n], turns[..n], after);
      SentAmongSnoc(after, picked);
    }
  }

  // ----- Several replicas -----

  /** The batch limit, the lease, and bounds on how long a live replica takes: from reading the clock for
      the claim to its first row, and for each row. */
  datatype Setting = Setting(batch: nat, lease: nat, setup: nat, perRow: nat)

  /** What a draining replica still has to work through; the head has been in hand since `since`. */
  datatype Drain = Drain(rows: seq<RowId>, stamp: nat, total: nat, since: nat)

  datatype State = State(now: nat, table: map<RowId, Row>, drains: map<ReplicaId, Drain>)

  datatype Step =
    | Write(id: RowId, row: Row)
    | Wait(seconds: nat)
    | Claim(replica: ReplicaId, rows: seq<RowId>, stamp: nat)
    | Finish(replica: ReplicaId, outcome: Option<EmailState>)
    | Crash(replica: ReplicaId)

  predicate MayBeClaimed(s: State, id: RowId, stamp: nat) {
    id in s.table && Claimable(s.table[id], stamp)
  }

  predicate InTime(d: Drain, now: nat, p: Setting) {
    now <= d.since + p.perRow
  }

  ghost predicate Enabled(s: State, step: Step, p: Setting) {
    match step
    case Write(id, row) => id !in s.table && row.state.Pending? && row.claimedUntil.None?
    case Wait(seconds) => forall r :: r in s.drains ==> InTime(s.drains[r], s.now + seconds, p)
    case Claim(r, rows, stamp) =>
      && r !in s.drains && 0 < |rows| <= p.batch && Distinct(rows)
      && stamp <= s.now <= stamp + p.setup
      && forall id :: id in rows ==> MayBeClaimed(s, id, stamp)
    case Finish(r, _) => r in s.drains && s.drains[r].rows != [] && s.drains[r].rows[0] in s.table
    case Crash(r) => r in s.drains
  }

  function Next(s: State, step: Step, p: Setting): State {
    match step
    case Write(id, row) => s.(table := s.table[id := row])
    case Wait(seconds) => s.(now := s.now + seconds)
    case Claim(r, rows, stamp) =>
      s.(table := map id | id in s.table :: if id in rows then Claimed(s.table[id], stamp, p.lease) else s.table[id],
         drains := s.drains[r := Drain(rows, stamp, |rows|, s.now)])
    case Finish(r, outcome) =>
      if r in s.drains && s.drains[r].rows != [] && s.drains[r].rows[0] in s.table then
        var d := s.drains[r];
        var id := d.rows[0];
        s.(table := s.table[id := Recorded(s.table[id], outcome)],
           drains := if |d.rows| == 1 then s.drains - {r} else s.drains[r := d.(rows := d.rows[1..], since := s.now)])
      else s
    case Crash(r) => s.(drains := s.drains - {r})
  }

  ghost predicate Initial(s: State) {
    s.drains == map[]
  }

  ghost predicate ReachedBy(s: State, steps: seq<Step>, start: State, p: Setting)
    decreases |steps|
  {
    if steps == [] then s == start && Initial(start)
    else
      exists before: State :: Arrives(before, steps, s, p) && ReachedBy(before, steps[..|steps| - 1], start, p)
  }

  ghost predicate Arrives(before: State, steps: seq<Step>, s: State, p: Setting)
    requires steps != []
  {
    Enabled(before, steps[|steps| - 1], p) && s == Next(before, steps[|steps| - 1], p)
  }

  ghost predicate Reachable(s: State, p: Setting) {
    exists steps, start :: ReachedBy(s, steps, start, p)
  }

  predicate Apart(d: Drain, e: Drain) {
    forall id :: id in d.rows ==> id !in e.rows
  }

  /** No two live replicas have the same row still to send. */
  predicate Exclusive(s: State) {
    forall r, q :: r in s.drains && q in s.drains && r != q ==> Apart(s.drains[r], s.drains[q])
  }

  // ----- A batch that fits in its lease -----

  predicate Fits(p: Setting) {
    p.setup + p.batch * p.perRow <= p.lease
  }

  predicate OnSchedule(d: Drain, now: nat, p: Setting) {
    && 0 < |d.rows| <= d.total <= p.batch
    && d.since <= now <= d.since + p.perRow
    && d.since <= d.stamp + p.setup + (d.total - |d.rows|) * p.perRow
  }

  ghost predicate DrainOk(s: State, d: Drain, p: Setting) {
    && OnSchedule(d, s.now, p) && Distinct(d.rows)
    && forall id :: id in d.rows ==> Leased(s, id, d.stamp + p.lease)
  }

  predicate Leased(s: State, id: RowId, until: nat) {
    id in s.table && s.table[id].state.Pending? && s.table[id].claimedUntil == Some(until)
  }

  ghost predicate Inv(s: State, p: Setting) {
    && (forall r :: r in s.drains ==> DrainOk(s, s.drains[r], p))
    && Exclusive(s)
  }

  lemma Product(n: nat, batch: nat, perRow: nat)
    requires n <= batch
    ensures n * perRow <= batch * perRow
  {
  }

  /** A replica on schedule still holds its lease. */
  lemma StillLeased(d: Drain, now: nat, p: Setting)
    requires Fits(p) && OnSchedule(d, now, p)
    ensures now <= d.stamp + p.lease
  {
    var done := d.total - |d.rows|;
    Product(done + 1, p.batch, p.perRow);
    assert (done + 1) * p.perRow == done * p.perRow + p.perRow;
  }

  lemma HeldIsNotClaimable(s: State, d: Drain, id: RowId, stamp: nat, p: Setting)
    requires Fits(p) && DrainOk(s, d, p) && id in d.rows && stamp <= s.now
    ensures !MayBeClaimed(s, id, stamp)
  {
    StillLeased(d, s.now, p);
    assert Leased(s, id, d.stamp + p.lease);
  }

  /** A drain is undisturbed by a step that leaves its rows alone. */
  lemma Undisturbed(s: State, t: State, d: Drain, p: Setting)
    requires DrainOk(s, d, p) && OnSchedule(d, t.now, p)
    requires forall id :: id in d.rows ==> id in t.table && t.table[id] == s.table[id]
    ensures DrainOk(t, d, p)
  {
    forall id | id in d.rows ensures Leased(t, id, d.stamp + p.lease) {
      assert Leased(s, id, d.stamp + p.lease);
    }
  }

  lemma ClaimKeepsInv(s: State, r: ReplicaId, rows: seq<RowId>, stamp: nat, p: Setting)
    requires Fits(p) && Inv(s, p) && Enabled(s, Claim(r, rows, stamp), p)
    ensures Inv(Next(s, Claim(r, rows, stamp), p), p)
  {
    var t := Next(s, Claim(r, rows, stamp), p);
    forall q | q in s.drains ensures Apart(s.drains[q], t.drains[r]) && DrainOk(t, s.drains[q], p) {
      forall id | id in s.drains[q].rows ensures id !in rows {
        HeldIsNotClaimable(s, s.drains[q], id, stamp, p);
        assert id in rows ==> MayBeClaimed(s, id, stamp);
      }
      assert forall id :: id in s.drains[q].rows ==> Leased(s, id, s.drains[q].stamp + p.lease);
      Undisturbed(s, t, s.drains[q], p);
    }
    forall id | id in rows ensures Leased(t, id, stamp + p.lease) {
      assert MayBeClaimed(s, id, stamp);
    }
    assert (|rows| - |rows|) * p.perRow == 0;
    assert DrainOk(t, t.drains[r], p);
  }

  lemma FinishKeepsInv(s: State, r: ReplicaId, outcome: Option<EmailState>, p: Setting)
    requires Inv(s, p) && Enabled(s, Finish(r, outcome), p)
    ensures Inv(Next(s, Finish(r, outcome), p), p)
  {
    var t := Next(s, Finish(r, outcome), p);
    var d := s.drains[r];
    var id := d.rows[0];
    assert DrainOk(s, d, p);
    forall q | q in s.drains && q != r ensures DrainOk(t, s.drains[q], p) {
      assert Apart(d, s.drains[q]);
      assert forall i :: i in s.drains[q].rows ==> Leased(s, i, s.drains[q].stamp + p.lease);
      Undisturbed(s, t, s.drains[q], p);
    }
    if |d.rows| > 1 {
      var e := t.drains[r];
      var done := d.total - |d.rows|;
      assert (done + 1) * p.perRow == done * p.perRow + p.perRow;
      assert id !in e.rows && Distinct(e.rows);
      forall i | i in e.rows ensures Leased(t, i, e.stamp + p.lease) {
        assert i in d.rows && Leased(s, i, d.stamp + p.lease);
      }
    }
  }

  lemma StepKeepsInv(s: State, step: Step, p: Setting)
    requires Fits(p) && Inv(s, p) && Enabled(s, step, p)
    ensures Inv(Next(s, step, p), p)
  {
    var t := Next(s, step, p);
    match step
    case Claim(r, rows, stamp) => ClaimKeepsInv(s, r, rows, stamp, p);
    case Finish(r, outcome) => FinishKeepsInv(s, r, outcome, p);
    case Crash(_) => StandStill(s, t, p);
    case Write(_, _) => StandStill(s, t, p);
    case Wait(_) => StandStill(s, t, p);
  }

  lemma StandStill(s: State, t: State, p: Setting)
    requires Inv(s, p) && s.now <= t.now
    requires forall r :: r in t.drains ==> r in s.drains && t.drains[r] == s.drains[r] && InTime(t.drains[r], t.now, p)
    requires forall id :: id in s.table ==> id in t.table && t.table[id] == s.table[id]
    ensures Inv(t, p)
  {
    forall r | r in t.drains ensures DrainOk(t, t.drains[r], p) {
      assert DrainOk(s, s.drains[r], p) && InTime(t.drains[r], t.now, p);
      assert forall id :: id in s.drains[r].rows ==> Leased(s, id, s.drains[r].stamp + p.lease);
      Undisturbed(s, t, s.drains[r], p);
    }
  }

  lemma {:induction false} RunKeepsInv(s: State, steps: seq<Step>, start: State, p: Setting)
    requires Fits(p) && ReachedBy(s, steps, start, p)
    ensures Inv(s, p)
    decreases |steps|
  {
    if steps != [] {
      var before: State :| Arrives(before, steps, s, p) && ReachedBy(before, steps[..|steps| - 1], start, p);
      RunKeepsInv(before, steps[..|steps| - 1], start, p);
      StepKeepsInv(before, steps[|steps| - 1], p);
    }
  }

  // ----- A batch that does not -----

  lemma Extend(s: State, step: Step, p: Setting)
    requires Reachable(s, p) && Enabled(s, step, p)
    ensures Reachable(Next(s, step, p), p)
  {
    var steps, start :| ReachedBy(s, steps, start, p);
    var t := Next(s, step, p);
    assert (steps + [step])[..|steps|] == steps;
    assert Arrives(s, steps + [step], t, p);
    assert ReachedBy(t, steps + [step], start, p);
  }

  function Ids(lo: nat, hi: nat): (r: seq<RowId>)
    requires lo <= hi
    ensures |r| == hi - lo
    decreases hi - lo
  {
    if lo == hi then [] else [lo] + Ids(lo + 1, hi)
  }

  lemma {:induction false} IdsAre(lo: nat, hi: nat)
    requires lo <= hi
    ensures forall i :: 0 <= i < hi - lo ==> Ids(lo, hi)[i] == lo + i
    ensures Distinct(Ids(lo, hi))
    decreases hi - lo
  {
    if lo < hi {
      IdsAre(lo + 1, hi);
    }
  }

  const NEW: Row := Row(Pending, None, 0, 0, 0, false)

  /** One replica takes all the time it is allowed; `k` rows are done, each handed to the relay. */
  ghost predicate Halfway(s: State, k: nat, p: Setting)
    requires k < p.batch
  {
    && s.now == p.setup + k * p.perRow
    && s.drains == map[0 := Drain(Ids(k, p.batch), 0, p.batch, s.now)]
    && forall id :: k <= id < p.batch ==> Leased(s, id, p.lease)
  }

  lemma {:induction false} SlowDrain(k: nat, p: Setting) returns (s: State)
    requires k < p.batch
    ensures Reachable(s, p) && Halfway(s, k, p)
    decreases k
  {
    if k == 0 {
      var ids := Ids(0, p.batch);
      IdsAre(0, p.batch);
      var start := State(p.setup, map id | id in ids :: NEW, map[]);
      assert ReachedBy(start, [], start, p);
      forall id | id in ids ensures MayBeClaimed(start, id, 0) {
      }
      Extend(start, Claim(0, ids, 0), p);
      s := Next(start, Claim(0, ids, 0), p);
      forall id | 0 <= id < p.batch ensures Leased(s, id, p.lease) {
        assert ids[id] == id;
      }
    } else {
      var before := SlowDrain(k - 1, p);
      s := OneSlowRow(before, k - 1, p);
    }
  }

  lemma OneSlowRow(before: State, k: nat, p: Setting) returns (s: State)
    requires k + 1 < p.batch && Reachable(before, p) && Halfway(before, k, p)
    ensures Reachable(s, p) && Halfway(s, k + 1, p)
  {
    Extend(before, Wait(p.perRow), p);
    var waited := Next(before, Wait(p.perRow), p);
    assert Ids(k, p.batch)[1..] == Ids(k + 1, p.batch) && Ids(k, p.batch)[0] == k;
    assert Leased(before, k, p.lease);
    Extend(waited, Finish(0, Some(Sent)), p);
    s := Next(waited, Finish(0, Some(Sent)), p);
    assert (k + 1) * p.perRow == k * p.perRow + p.perRow;
    forall id | k + 1 <= id < p.batch ensures Leased(s, id, p.lease) {
      assert Leased(before, id, p.lease);
    }
  }

  /** When the last row has had its time the lease has run out, with the row still in hand. */
  lemma LeaseRunsOutInHand(p: Setting) returns (s: State)
    requires p.batch > 0 && !Fits(p)
    ensures Reachable(s, p) && s.drains.Keys == {0} && s.drains[0].rows == [p.batch - 1]
    ensures MayBeClaimed(s, p.batch - 1, s.now)
  {
    var last := p.batch - 1;
    var before := SlowDrain(last, p);
    Extend(before, Wait(p.perRow), p);
    s := Next(before, Wait(p.perRow), p);
    assert p.batch * p.perRow == last * p.perRow + p.perRow;
    assert Leased(before, last, p.lease);
    assert Ids(last, p.batch) == [last];
  }

  /** The last row of a slow batch is claimed again while it is still in hand. */
  lemma SlowBatchIsClaimedTwice(p: Setting) returns (s: State)
    requires p.batch > 0 && !Fits(p)
    ensures Reachable(s, p) && !Exclusive(s)
  {
    var last := p.batch - 1;
    var before := LeaseRunsOutInHand(p);
    Extend(before, Claim(1, [last], before.now), p);
    s := Next(before, Claim(1, [last], before.now), p);
    assert s.drains[0].rows == [last] && s.drains[1].rows == [last];
    assert last in s.drains[0].rows;
    assert !Apart(s.drains[0], s.drains[1]);
  }

  /** Replicas never work on the same row at once if and only if the worst case of a batch fits in the
      lease. */
  lemma ExclusiveIffTheBatchFitsTheLease(p: Setting)
    requires p.batch > 0
    ensures (forall s :: Reachable(s, p) ==> Exclusive(s)) <==> Fits(p)
  {
    if Fits(p) {
      forall s | Reachable(s, p) ensures Exclusive(s) {
        var steps, start :| ReachedBy(s, steps, start, p);
        RunKeepsInv(s, steps, start, p);
      }
    } else {
      var s := SlowBatchIsClaimedTwice(p);
    }
  }

  /** With the constants as they are: 400 seconds are left for everything but the relay's timeout, so
      eight seconds of database and composition a row are safe and nine are not. */
  lemma HeadroomOfTheConstants(setup: nat, overhead: nat)
    ensures (forall s :: Reachable(s, Setting(CLAIM_BATCH, CLAIM_LEASE, setup, SEND_TIMEOUT + overhead)) ==>
            Exclusive(s))
       <==> setup + 50 * overhead <= 400
  {
    ExclusiveIffTheBatchFitsTheLease(Setting(CLAIM_BATCH, CLAIM_LEASE, setup, SEND_TIMEOUT + overhead));
  }

  /** `sent`, `failed` and `skipped` are final: no step of any replica writes over them. */
  lemma OutcomesAreFinal(s: State, step: Step, p: Setting, id: RowId)
    requires Enabled(s, step, p) && id in s.table && !s.table[id].state.Pending?
    ensures id in Next(s, step, p).table && Next(s, step, p).table[id] == s.table[id]
  {
    if step.Claim? {
      assert id in step.rows ==> MayBeClaimed(s, id, step.stamp);
    }
  }
}
